/** Value types of the JVM that the user records carry: java.time.LocalDate,
    java.util.UUID and the 32-bit Kotlin Int with its wrap-around. */
module Common {

  /** A calendar date; only compared for equality and copied around. */
  datatype LocalDate = LocalDate(year: int, month: int, day: int)

  /** A UUID as the two 64-bit halves java.util.UUID stores. */
  datatype Uuid = Uuid(mostSigBits: int, leastSigBits: int)

  const Int32Min: int := -0x8000_0000
  const Int32Max: int := 0x7fff_ffff

  predicate IsInt32(x: int) { Int32Min <= x <= Int32Max }

  /** Two's-complement reduction of an unbounded integer to a Kotlin Int,
      as the JVM's `int` arithmetic does on overflow. */
  function Wrap32(x: int): (r: int)
    ensures IsInt32(r)
    ensures (x - r) % 0x1_0000_0000 == 0
    ensures IsInt32(x) ==> r == x
  {
    (x - Int32Min) % 0x1_0000_0000 + Int32Min
  }
}
