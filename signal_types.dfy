/** Values shared by the envelope codec and the account pipeline. */
module SignalTypes {
  import opened Wrappers
  import opened JavaTypes

  /** A UUID as its 32 hexadecimal digits, most significant first. */
  datatype Uuid = Uuid(digits: seq<int>)

  /**
   * A peer address: optional UUID and phone number. The address resolver is
   * taken to canonicalise addresses, so that `matches` is equality here.
   */
  datatype Address = Address(uuid: Option<Uuid>, number: JString)

  function HexValue(c: JChar): Option<int>
  {
    if '0' as int <= c <= '9' as int then Some(c - '0' as int)
    else if 'a' as int <= c <= 'f' as int then Some(c - 'a' as int + 10)
    else if 'A' as int <= c <= 'F' as int then Some(c - 'A' as int + 10)
    else None
  }

  predicate IsHyphenPosition(i: int) { i == 8 || i == 13 || i == 18 || i == 23 }

  /** The text of a UUID in the 8-4-4-4-12 pattern, hex digits in either case. */
  predicate IsUuidText(t: JString)
  {
    && |t| == 36
    && (forall i :: 0 <= i < 36 && IsHyphenPosition(i) ==> t[i] == '-' as int)
    && (forall i :: 0 <= i < 36 && !IsHyphenPosition(i) ==> HexValue(t[i]).Some?)
  }

  function DigitsOf(t: JString): (d: seq<int>)
    requires forall i :: 0 <= i < |t| ==> HexValue(t[i]).Some? || t[i] == '-' as int
    ensures |d| <= |t|
  {
    if t == [] then []
    else if t[0] == '-' as int then DigitsOf(t[1..])
    else [HexValue(t[0]).value] + DigitsOf(t[1..])
  }

  /** `UuidUtil.parseOrNull`: a UUID for text in the UUID pattern, otherwise absent. */
  function ParseUuidOrNull(t: JString): (r: Option<Uuid>)
    ensures r.Some? <==> IsUuidText(t)
  {
    if IsUuidText(t) then Some(Uuid(DigitsOf(t))) else None
  }
}
