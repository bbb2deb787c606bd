/** The `lucide-react` icon components the block-list views choose from. */
module Icons {
  datatype Icon = Gamepad2 | Globe | Play | Music | MessageCircle | Users | FileText | Code | Monitor
}
