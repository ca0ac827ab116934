// Constants of TinyWebServer's http_conn that the parser and the writer share.
module HttpCodes {
  const READ_BUFFER_SIZE: nat := 2048
  const WRITE_BUFFER_SIZE: nat := 1024
  const INT_MAX: int := 0x7fff_ffff

  // UNDEFINED is not a code of the source: the model stops there when the
  // source would use a null pointer or write outside its buffer.
  datatype HttpCode =
    | NO_REQUEST
    | GET_REQUEST
    | BAD_REQUEST
    | NO_RESOURCE
    | FORBIDDEN_REQUEST
    | FILE_REQUEST
    | INTERNAL_ERROR
    | CLOSED_CONNECTION
    | UNDEFINED

  // The value of x converted to a 32-bit int.
  function ToInt32(x: int): int {
    (x + 0x8000_0000) % 0x1_0000_0000 - 0x8000_0000
  }

  lemma ToInt32Exactly(x: nat)
    ensures ToInt32(x) == x <==> x <= INT_MAX
    ensures -INT_MAX - 1 <= ToInt32(x) <= INT_MAX && (x - ToInt32(x)) % 0x1_0000_0000 == 0
  {
  }
}
