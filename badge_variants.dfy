/** The variant names the Badge component accepts, as used by the pages. */
module BadgeVariants {
  datatype Variant = Success | Warning | Error | Info
}
