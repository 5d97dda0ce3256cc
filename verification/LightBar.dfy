/** The light bar of the PS4 and PS5 gamepads. */
module LightBar {
  import opened Win32

  datatype Led = Led(red: Byte, green: Byte, blue: Byte)

  const DARK: Led := Led(0, 0, 0)
}
