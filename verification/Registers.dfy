/** The two register files of the target. */
module Registers {
  datatype File = Scalar | Vector
}
