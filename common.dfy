/** Values shared by every part of the model: optional values, results,
    the program's error values, Go's fixed-width integers and Go slices
    (which, unlike Dafny sequences, can be nil). */
module Common {

  datatype Option<+T> = None | Some(value: T)

  datatype Result<+T> = Ok(value: T) | Err(error: Error)

  /** The error values the program produces or passes on. Errors raised by
      collaborators that are not modelled (Redis, protobuf, an io.Reader,
      the base64 decoder) are `Foreign`; `errors.Wrap` is `Wrapped`. */
  datatype Error =
    | EmptyPrefix
    | NilPool
    | InvalidArgument
    | WrongLength
    | Wrapped(message: string, cause: Error)
    | Foreign(description: string)

  /** queue.ErrNilReq: ErrInvalidArgument wrapped with "req is nil". */
  const NilRequest: Error := Wrapped("req is nil", InvalidArgument)

  const MinInt64: int := -0x8000_0000_0000_0000
  const MaxInt64: int := 0x7fff_ffff_ffff_ffff
  const TwoTo64: int := 0x1_0000_0000_0000_0000

  type Int64 = x: int | MinInt64 <= x <= MaxInt64
  type Int32 = x: int | -0x8000_0000 <= x <= 0x7fff_ffff

  /** Two's-complement wrap-around of Go's int64 arithmetic: the unique
      int64 congruent to `x` modulo 2^64. */
  function Wrap64(x: int): (r: Int64)
    ensures (x - r) % TwoTo64 == 0
    ensures MinInt64 <= x <= MaxInt64 ==> r == x
  {
    var m := (x - MinInt64) % TwoTo64;
    assert x - (m + MinInt64) == TwoTo64 * ((x - MinInt64) / TwoTo64);
    m + MinInt64
  }

  /** A Go slice: nil, or made (possibly empty). `len` of nil is 0. */
  datatype GoSlice<T> = Nil | Made(items: seq<T>) {
    function Contents(): seq<T> {
      if Nil? then [] else items
    }
  }
}
