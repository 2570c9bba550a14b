/** A line format of the kind the log file needs: numbers written in unary between angle brackets. */
module LogCodec {
  import opened Wrappers
  import opened LogFile

  function Marks(n: nat): (t: Text)
    ensures |t| == n && forall i | 0 <= i < n :: t[i] == 'x'
  {
    if n == 0 then "" else "x" + Marks(n - 1)
  }

  function Enc(n: nat): Text {
    "<" + Marks(n) + ">"
  }

  predicate Bracketed(t: Text) {
    |t| >= 2 && t[0] == '<' && t[|t| - 1] == '>' && forall i | 1 <= i < |t| - 1 :: t[i] == 'x'
  }

  function Dec(t: Text): Option<nat> {
    if Bracketed(t) then Some(|t| - 2) else None
  }

  const BRACKETS: Codec<nat> := Codec(Enc, Dec)

  /** Every piece starts with a bracket, so a second piece puts one where only marks may be. */
  lemma {:induction false} SecondBracket(line: seq<Piece<nat>>)
    requires LineOk(BRACKETS, line) && |line| > 1
    ensures exists k :: 1 <= k < |LineText(BRACKETS, line)| && LineText(BRACKETS, line)[k] == '<'
  {
    var a, rest := PieceText(BRACKETS, line[0]), line[1..];
    assert PieceOk(BRACKETS, line[0]) && PieceOk(BRACKETS, line[1]) && rest[0] == line[1];
    assert LineText(BRACKETS, line) == a + LineText(BRACKETS, rest);
    assert LineText(BRACKETS, rest)[0] == '<';
    assert LineText(BRACKETS, line)[|a|] == '<';
  }

  /** What the recovery theorems ask of a line format can be had. */
  lemma BracketsAreCodec()
    ensures IsCodec(BRACKETS)
  {
    forall e: nat ensures Line(BRACKETS, e) {
      assert Bracketed(Enc(e));
    }
    forall line: seq<Piece<nat>> ensures NoForgery(BRACKETS, line) {
      if LineOk(BRACKETS, line) && |line| > 1 {
        SecondBracket(line);
      } else if LineOk(BRACKETS, line) && |line| == 1 && !Whole(BRACKETS, line[0]) {
        assert line[1..] == [];
        var t := LineText(BRACKETS, line);
        assert PieceOk(BRACKETS, line[0]);
        assert t == Enc(line[0].entry)[..line[0].n] + "";
      }
    }
  }
}
