/** SQL parameter and column values: NULL or a non-NULL value, written as text. */
module SqlValue {
  datatype Value = Null | Val(text: string)
}
