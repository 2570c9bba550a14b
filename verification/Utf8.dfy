/** Bytes read as UTF-8 (section 3 of RFC 3629) into 16-bit code units, with U+FFFD for what is malformed. */
module Utf8 {
  import opened Commands

  /** How many continuation bytes a lead byte asks for; none also for a byte that cannot lead. */
  function Needs(b: Byte): nat {
    if 0xC2 <= b <= 0xDF then 1 else if 0xE0 <= b <= 0xEF then 2 else if 0xF0 <= b <= 0xF4 then 3 else 0
  }

  /** The byte after the lead byte: it rules out overlong forms, surrogates and what lies past U+10FFFF. */
  predicate Second(lead: Byte, b: Byte) {
    (if lead == 0xE0 then 0xA0 else if lead == 0xF0 then 0x90 else 0x80) <= b
    <= (if lead == 0xED then 0x9F else if lead == 0xF4 then 0x8F else 0xBF)
  }

  /** How many continuation bytes of the sequence that starts `v` are there, up to the first that does not fit. */
  function Follows(v: Value, i: nat): (n: nat)
    requires v != [] && 1 <= i <= Needs(v[0]) + 1
    ensures i - 1 <= n <= Needs(v[0]) && (n < |v| || n == i - 1)
    decreases Needs(v[0]) + 1 - i
  {
    if i > Needs(v[0]) || i >= |v| || !(if i == 1 then Second(v[0], v[1]) else 0x80 <= v[i] <= 0xBF) then i - 1
    else Follows(v, i + 1)
  }

  /** The bits of a byte below `bound`. */
  function Low(v: Value, i: nat, bound: nat): int
    requires i < |v| && bound > 0
  {
    v[i] as int % bound
  }

  /** The code point of a complete sequence. */
  function Point(v: Value): nat
    requires v != [] && Needs(v[0]) < |v|
  {
    match Needs(v[0])
    case 0 => v[0]
    case 1 => Low(v, 0, 0x20) * 0x40 + Low(v, 1, 0x40)
    case 2 => (Low(v, 0, 0x10) * 0x40 + Low(v, 1, 0x40)) * 0x40 + Low(v, 2, 0x40)
    case _ => ((Low(v, 0, 8) * 0x40 + Low(v, 1, 0x40)) * 0x40 + Low(v, 2, 0x40)) * 0x40 + Low(v, 3, 0x40)
  }

  /** One code unit, or two for a point past the first plane. */
  function Units(point: nat): Key {
    if point < 0x1_0000 then [point]
    else [0xD800 + (point - 0x1_0000) / 0x400 % 0x400, 0xDC00 + (point - 0x1_0000) % 0x400]
  }

  function Text(v: Value): Key
    decreases |v|
  {
    if v == [] then []
    else if v[0] < 0x80 then [v[0]] + Text(v[1..])
    else
      var n := Follows(v, 1);
      if Needs(v[0]) > 0 && n == Needs(v[0]) then Units(Point(v)) + Text(v[n + 1..])
      else [0xFFFD] + Text(v[n + 1..])
  }
}
