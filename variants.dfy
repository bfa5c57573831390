/** The two readings of the front end the model carries side by side: the program as its
    source is written, and the program with the defects listed under Findings in
    README.md corrected (the comma-free second argument of a call, the flattening of
    left operands and postfix operators, and the library that keeps its last function). */
module Variants {
  datatype Variant = AsWritten | Corrected
}
