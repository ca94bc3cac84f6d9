/** The values on the stack of the virtual machine. */
module Values {

  datatype Value = Null | Integer(n: int)
}
