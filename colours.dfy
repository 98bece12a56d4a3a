/** The colours the admin pages paint their status badges with. */
module Colours {
  datatype Colour = Green | Blue | Orange | Red | DarkRed | Gray
}
