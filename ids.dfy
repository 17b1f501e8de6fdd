/** Identifiers and instants as the model sees them. */
module Ids {

  /** A java.util.UUID, as an opaque value. `UUID.randomUUID()` yields a
      `RandomUuid` whose random bits are a parameter of the creating call;
      `UUID.nameUUIDFromBytes(b)` yields a `NameUuid` that depends only on
      the bytes b. */
  datatype Uuid = RandomUuid(bits: nat) | NameUuid(name: string)

  /** `UUID.nameUUIDFromBytes(s.getBytes())`: the same text always gives the
      same id. */
  function NameUuidFromBytes(s: string): (u: Uuid)
    ensures u.NameUuid? && u.name == s
  {
    NameUuid(s)
  }

  /** A java.util.Date, as its count of milliseconds since the epoch. */
  type Millis = int

  /** Milliseconds in one day. */
  const MillisPerDay: int := 86_400_000
}
