/**
 * Terminal colouring. The styles the core applies are named here; what a
 * style does to a string (ANSI escape codes, or nothing when colour is off)
 * is the parameter `Paint`, so every result is stated for any colouring.
 */
module Chalk {
  datatype Style = Gray | Cyan | Green | Red | Yellow | Blue | Bold

  /** `chalk.<style>(text)` */
  type Paint = (Style, string) -> string
}
