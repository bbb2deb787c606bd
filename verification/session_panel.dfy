/** The duration picker of client/src/components/SessionPanel.tsx: three presets, custom
    minutes, the "custom" badge and the minutes shown on the Start button. */
module SessionPanel {

  /** A preset button: its `label` (here `caption`), its value in seconds and its description. */
  datatype Preset = Preset(caption: string, value: int, description: string)

  /** `PRESET_DURATIONS`. */
  const Presets: seq<Preset> := [
    Preset("25 min", 25 * 60, "Pomodoro"),
    Preset("45 min", 45 * 60, "Deep Work"),
    Preset("60 min", 60 * 60, "Extended")
  ]

  /** `isCustomDuration`: no preset has the selected duration. */
  predicate IsCustomDuration(selected: int) {
    !exists i :: 0 <= i < |Presets| && Presets[i].value == selected
  }

  /** `handlePresetSelect`: the new selected duration is the preset's value. */
  function SelectPreset(preset: Preset): int {
    preset.value
  }

  /** `handleCustomSubmit`: minutes times 60, with no bound applied (the 1..180 range is only an
      attribute of the input field). */
  function CustomDuration(customMinutes: int): int {
    customMinutes * 60
  }

  /** `Math.floor(selectedDuration / 60)` on the badge and the Start button. */
  function DisplayMinutes(selected: int): (r: int)
    ensures r * 60 <= selected < (r + 1) * 60
  {
    selected / 60
  }

  /** A preset button is highlighted when its value is the selected duration. */
  function PresetVariant(selected: int, preset: Preset): string {
    if selected == preset.value then "default" else "outline"
  }

  /** The Start button passes the selected duration on unchanged. */
  function StartArgument(selected: int): int {
    selected
  }

  /** The presets are 1500, 2700 and 3600 seconds, and each caption's minutes are its value. */
  lemma PresetValues()
    ensures |Presets| == 3
    ensures Presets[0].value == 1500 && Presets[1].value == 2700 && Presets[2].value == 3600
    ensures forall i :: 0 <= i < |Presets| ==>
      Presets[i].caption == (if i == 0 then "25" else if i == 1 then "45" else "60") + " min" &&
      DisplayMinutes(Presets[i].value) * 60 == Presets[i].value
  {
  }

  /** A duration is custom exactly when it is none of the three preset values. */
  lemma IsCustomDurationSpec(selected: int)
    ensures IsCustomDuration(selected) <==> selected != 1500 && selected != 2700 && selected != 3600
  {
    if !IsCustomDuration(selected) {
      var i :| 0 <= i < |Presets| && Presets[i].value == selected;
    } else {
      assert Presets[0].value != selected && Presets[1].value != selected && Presets[2].value != selected;
    }
  }

  /** Selecting a preset makes the duration non-custom and highlights exactly that preset. */
  lemma SelectPresetSpec(i: int)
    requires 0 <= i < |Presets|
    ensures !IsCustomDuration(SelectPreset(Presets[i]))
    ensures forall j :: 0 <= j < |Presets| ==>
      (PresetVariant(SelectPreset(Presets[i]), Presets[j]) == "default" <==> j == i)
  {
  }

  /** Custom minutes come back unchanged on the badge and the Start button, for any number of
      minutes, and a custom duration is "custom" exactly when the minutes are not 25, 45 or 60. */
  lemma CustomDurationSpec(customMinutes: int)
    ensures DisplayMinutes(CustomDuration(customMinutes)) == customMinutes
    ensures StartArgument(CustomDuration(customMinutes)) == customMinutes * 60
    ensures IsCustomDuration(CustomDuration(customMinutes)) <==>
      customMinutes != 25 && customMinutes != 45 && customMinutes != 60
  {
    IsCustomDurationSpec(CustomDuration(customMinutes));
  }
}
