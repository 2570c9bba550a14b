/**
 The log file: one line of text per entry, appended; and what reading it back gives after complete
 appends, appends cut short by a crash, and rewrites.
 */
module LogFile {
  import opened Wrappers

  type Text = string

  /** An entry to its line, without the newline, and back; a line that is not one parses to None. */
  datatype Codec<!E> = Codec(enc: E -> Text, dec: Text -> Option<E>)

  // ---- the file as text ----------------------------------------------------

  /** The lines of an append, each with its newline. */
  function Payload<E>(c: Codec<E>, es: seq<E>): Text {
    if es == [] then "" else c.enc(es[0]) + "\n" + Payload(c, es[1..])
  }

  /** Where the first newline is, or the length. */
  function FirstBreak(raw: Text): (n: nat)
    ensures n <= |raw| && (n < |raw| ==> raw[n] == '\n') && forall i | 0 <= i < n :: raw[i] != '\n'
  {
    if raw == "" || raw[0] == '\n' then 0 else 1 + FirstBreak(raw[1..])
  }

  /** The text split at its newlines: always one more piece than there are newlines. */
  function Lines(raw: Text): (lines: seq<Text>)
    ensures lines != []
    decreases |raw|
  {
    var n := FirstBreak(raw);
    if n == |raw| then [raw] else [raw[..n]] + Lines(raw[n + 1..])
  }

  /** Empty lines are skipped; the first line that does not parse ends the reading. */
  function ReadLines<E>(c: Codec<E>, lines: seq<Text>): seq<E> {
    if lines == [] then []
    else if lines[0] == "" then ReadLines(c, lines[1..])
    else match c.dec(lines[0])
      case None => []
      case Some(e) => [e] + ReadLines(c, lines[1..])
  }

  function Read<E>(c: Codec<E>, raw: Text): seq<E> {
    ReadLines(c, Lines(raw))
  }

  // ---- what a crash can leave ----------------------------------------------

  /** The first `n` characters of an entry's line, at least one of them. */
  datatype Piece<E> = Piece(entry: E, n: nat)

  predicate PieceOk<E>(c: Codec<E>, p: Piece<E>) {
    1 <= p.n <= |c.enc(p.entry)|
  }

  function PieceText<E>(c: Codec<E>, p: Piece<E>): Text
    requires PieceOk(c, p)
  {
    c.enc(p.entry)[..p.n]
  }

  predicate Whole<E>(c: Codec<E>, p: Piece<E>) {
    p.n == |c.enc(p.entry)|
  }

  predicate LineOk<E>(c: Codec<E>, line: seq<Piece<E>>) {
    forall i | 0 <= i < |line| :: PieceOk(c, line[i])
  }

  /** Pieces glued on one line, as happens when an append follows a torn one. */
  function LineText<E>(c: Codec<E>, line: seq<Piece<E>>): Text
    requires LineOk(c, line)
  {
    if line == [] then "" else PieceText(c, line[0]) + LineText(c, line[1..])
  }

  /** An entry's line is not empty, has no newline and parses back. */
  ghost predicate Line<E(!new)>(c: Codec<E>, e: E) {
    c.enc(e) != "" && '\n' !in c.enc(e) && c.dec(c.enc(e)) == Some(e)
  }

  /** A piece that was cut short does not parse, and neither does anything glued from two or more pieces. */
  ghost predicate NoForgery<E(!new)>(c: Codec<E>, line: seq<Piece<E>>) {
    LineOk(c, line) && (|line| > 1 || (|line| == 1 && !Whole(c, line[0]))) ==> c.dec(LineText(c, line)) == None
  }

  /** What line-by-line JSON of objects gives: a proper prefix is unbalanced, and so is whatever is glued to one. */
  ghost predicate IsCodec<E(!new)>(c: Codec<E>) {
    && (forall e :: Line(c, e))
    && (forall line :: NoForgery(c, line))
  }

  // ---- the file as the pieces it was written in ----------------------------

  /** Finished lines, and the pieces after the last newline. */
  datatype File<E> = File(lines: seq<seq<Piece<E>>>, last: seq<Piece<E>>)

  predicate FileOk<E>(c: Codec<E>, f: File<E>) {
    && (forall i | 0 <= i < |f.lines| :: LineOk(c, f.lines[i]) && f.lines[i] != [])
    && LineOk(c, f.last)
  }

  function TextOf<E>(c: Codec<E>, f: File<E>): Text
    requires FileOk(c, f)
    decreases |f.lines|
  {
    if f.lines == [] then LineText(c, f.last)
    else LineText(c, f.lines[0]) + "\n" + TextOf(c, File(f.lines[1..], f.last))
  }

  function AllLines<E>(f: File<E>): seq<seq<Piece<E>>> {
    f.lines + [f.last]
  }

  /** The entries of the lines up to the first that is not exactly one whole entry. */
  function ReadPieces<E>(c: Codec<E>, lines: seq<seq<Piece<E>>>): seq<E> {
    if lines == [] then []
    else if lines[0] == [] then ReadPieces(c, lines[1..])
    else if |lines[0]| == 1 && Whole(c, lines[0][0]) then [lines[0][0].entry] + ReadPieces(c, lines[1..])
    else []
  }

  /** A complete append. */
  function Appended<E>(c: Codec<E>, f: File<E>, es: seq<E>): File<E>
    decreases |es|
  {
    if es == [] then f
    else Appended(c, File(f.lines + [f.last + [Piece(es[0], |c.enc(es[0])|)]], []), es[1..])
  }

  /** An append of which only the first `n` characters reached the file. */
  function Torn<E>(c: Codec<E>, f: File<E>, es: seq<E>, n: nat): File<E>
    decreases |es|
  {
    if es == [] || n == 0 then f
    else
      var whole := |c.enc(es[0])|;
      if n <= whole then f.(last := f.last + [Piece(es[0], n)])
      else Torn(c, File(f.lines + [f.last + [Piece(es[0], whole)]], []), es[1..], n - whole - 1)
  }

  /** Every line is one whole entry, and the file ends in a newline. */
  predicate Clean<E>(c: Codec<E>, f: File<E>) {
    && f.last == []
    && forall i | 0 <= i < |f.lines| :: |f.lines[i]| == 1 && Whole(c, f.lines[i][0])
  }

  // ---- text lemmas ---------------------------------------------------------

  lemma {:induction false} LineTextClean<E(!new)>(c: Codec<E>, line: seq<Piece<E>>)
    requires IsCodec(c) && LineOk(c, line)
    ensures '\n' !in LineText(c, line)
    ensures line != [] ==> LineText(c, line) != ""
  {
    if line != [] {
      assert Line(c, line[0].entry);
      assert LineOk(c, line[1..]);
      LineTextClean(c, line[1..]);
    }
  }

  lemma {:induction false} FirstBreakIs(a: Text, b: Text)
    requires '\n' !in a
    ensures FirstBreak(a) == |a| && FirstBreak(a + "\n" + b) == |a|
  {
    if a == "" {
      assert a + "\n" + b == "\n" + b;
    } else {
      assert (a + "\n" + b)[1..] == a[1..] + "\n" + b;
      FirstBreakIs(a[1..], b);
    }
  }

  lemma LinesSplit(a: Text, b: Text)
    requires '\n' !in a
    ensures Lines(a) == [a] && Lines(a + "\n" + b) == [a] + Lines(b)
  {
    FirstBreakIs(a, b);
    var raw := a + "\n" + b;
    assert raw[..|a|] == a && raw[|a| + 1..] == b;
  }

  /** One line's contribution to the reading. */
  lemma ReadLine<E(!new)>(c: Codec<E>, line: seq<Piece<E>>)
    requires IsCodec(c) && LineOk(c, line) && line != []
    ensures LineText(c, line) != ""
    ensures c.dec(LineText(c, line)) == if |line| == 1 && Whole(c, line[0]) then Some(line[0].entry) else None
  {
    LineTextClean(c, line);
    assert NoForgery(c, line);
    if |line| == 1 && Whole(c, line[0]) {
      assert Line(c, line[0].entry);
      assert line[1..] == [];
      assert LineText(c, line) == c.enc(line[0].entry)[..line[0].n] + "" == c.enc(line[0].entry);
    }
  }

  /** Reading the text is reading the pieces. */
  lemma {:induction false} ReadIs<E(!new)>(c: Codec<E>, f: File<E>)
    requires IsCodec(c) && FileOk(c, f)
    ensures Read(c, TextOf(c, f)) == ReadPieces(c, AllLines(f))
    decreases |f.lines|
  {
    hide Lines, FirstBreak;
    if f.lines == [] {
      LineTextClean(c, f.last);
      LinesSplit(LineText(c, f.last), "");
      var text := LineText(c, f.last);
      var texts, all := Lines(text), AllLines(f);
      assert texts == [text] && texts[1..] == [];
      assert all == [f.last] && all[1..] == [];
      assert ReadLines(c, texts[1..]) == [] && ReadPieces(c, all[1..]) == [];
      assert text == texts[0] && f.last == all[0];
      if f.last != [] { ReadLine(c, f.last); }
    } else {
      var rest := File(f.lines[1..], f.last);
      var line := f.lines[0];
      LineTextClean(c, line);
      LinesSplit(LineText(c, line), TextOf(c, rest));
      ReadLine(c, line);
      ReadIs(c, rest);
      assert AllLines(f)[1..] == AllLines(rest);
      assert ([LineText(c, line)] + Lines(TextOf(c, rest)))[1..] == Lines(TextOf(c, rest));
    }
  }

  lemma {:induction false} LineTextPush<E>(c: Codec<E>, line: seq<Piece<E>>, p: Piece<E>)
    requires LineOk(c, line) && PieceOk(c, p)
    ensures LineOk(c, line + [p]) && LineText(c, line + [p]) == LineText(c, line) + PieceText(c, p)
  {
    if line == [] {
      assert line + [p] == [p] && [p][1..] == [];
      assert LineText(c, [p]) == PieceText(c, p) + "";
    } else {
      assert (line + [p])[1..] == line[1..] + [p];
      LineTextPush(c, line[1..], p);
    }
  }

  lemma {:induction false} TextPush<E>(c: Codec<E>, f: File<E>, p: Piece<E>)
    requires FileOk(c, f) && PieceOk(c, p)
    ensures FileOk(c, f.(last := f.last + [p])) && TextOf(c, f.(last := f.last + [p])) == TextOf(c, f) + PieceText(c, p)
    decreases |f.lines|
  {
    LineTextPush(c, f.last, p);
    if f.lines != [] { TextPush(c, File(f.lines[1..], f.last), p); }
  }

  lemma {:induction false} TextClose<E>(c: Codec<E>, f: File<E>)
    requires FileOk(c, f) && f.last != []
    ensures FileOk(c, File(f.lines + [f.last], [])) && TextOf(c, File(f.lines + [f.last], [])) == TextOf(c, f) + "\n"
    decreases |f.lines|
  {
    var closed := File(f.lines + [f.last], []);
    if f.lines == [] {
      assert closed.lines[1..] == [];
      var none: File<E> := File([], []);
      assert LineText(c, none.last) == "" && TextOf(c, none) == "";
    } else {
      TextClose(c, File(f.lines[1..], f.last));
      assert closed.lines[1..] == f.lines[1..] + [f.last];
    }
  }

  lemma {:induction false} AppendText<E(!new)>(c: Codec<E>, f: File<E>, es: seq<E>)
    requires IsCodec(c) && FileOk(c, f)
    ensures FileOk(c, Appended(c, f, es)) && TextOf(c, Appended(c, f, es)) == TextOf(c, f) + Payload(c, es)
    decreases |es|
  {
    if es == [] {
      assert TextOf(c, f) + "" == TextOf(c, f);
    } else {
      TextWhole(c, f, es[0]);
      AppendText(c, File(f.lines + [f.last + [Piece(es[0], |c.enc(es[0])|)]], []), es[1..]);
    }
  }

  lemma {:induction false} TornText<E(!new)>(c: Codec<E>, f: File<E>, es: seq<E>, n: nat)
    requires IsCodec(c) && FileOk(c, f) && n <= |Payload(c, es)|
    ensures FileOk(c, Torn(c, f, es, n)) && TextOf(c, Torn(c, f, es, n)) == TextOf(c, f) + Payload(c, es)[..n]
    decreases |es|
  {
    if es == [] || n == 0 {
      assert TextOf(c, f) + Payload(c, es)[..n] == TextOf(c, f);
    } else {
      assert Line(c, es[0]);
      var whole := |c.enc(es[0])|;
      if n <= whole {
        TextPush(c, f, Piece(es[0], n));
        assert Payload(c, es)[..n] == c.enc(es[0])[..n];
      } else {
        TextWhole(c, f, es[0]);
        TornText(c, File(f.lines + [f.last + [Piece(es[0], whole)]], []), es[1..], n - whole - 1);
        CutPayload(c, es, n, TextOf(c, f));
      }
    }
  }

  lemma TextWhole<E(!new)>(c: Codec<E>, f: File<E>, e: E)
    requires IsCodec(c) && FileOk(c, f)
    ensures var g := File(f.lines + [f.last + [Piece(e, |c.enc(e)|)]], []);
            FileOk(c, g) && TextOf(c, g) == TextOf(c, f) + c.enc(e) + "\n"
  {
    assert Line(c, e);
    var p := Piece(e, |c.enc(e)|);
    TextPush(c, f, p);
    TextClose(c, f.(last := f.last + [p]));
    assert PieceText(c, p) == c.enc(e);
  }

  lemma CutPayload<E>(c: Codec<E>, es: seq<E>, n: nat, before: Text)
    requires es != [] && |c.enc(es[0])| < n <= |Payload(c, es)|
    ensures before + c.enc(es[0]) + "\n" + Payload(c, es[1..])[..n - |c.enc(es[0])| - 1] == before + Payload(c, es)[..n]
  {
  }

  // ---- what is read back ---------------------------------------------------

  lemma ReadPiecesPlus<E>(c: Codec<E>, a: seq<seq<Piece<E>>>, b: seq<seq<Piece<E>>>)
    ensures (forall i | 0 <= i < |a| :: |a[i]| == 1 && Whole(c, a[i][0])) ==>
              |ReadPieces(c, a)| == |a| && ReadPieces(c, a + b) == ReadPieces(c, a) + ReadPieces(c, b)
    ensures (exists i :: 0 <= i < |a| && a[i] != [] && !(|a[i]| == 1 && Whole(c, a[i][0]))) ==>
              ReadPieces(c, a + b) == ReadPieces(c, a)
  {
    if forall i | 0 <= i < |a| :: |a[i]| == 1 && Whole(c, a[i][0]) {
      WholePlus(c, a, b);
    }
    if i :| 0 <= i < |a| && a[i] != [] && !(|a[i]| == 1 && Whole(c, a[i][0])) {
      DamagedPlus(c, a, b, i);
    }
  }

  lemma {:induction false} WholePlus<E>(c: Codec<E>, a: seq<seq<Piece<E>>>, b: seq<seq<Piece<E>>>)
    requires forall i | 0 <= i < |a| :: |a[i]| == 1 && Whole(c, a[i][0])
    ensures |ReadPieces(c, a)| == |a| && ReadPieces(c, a + b) == ReadPieces(c, a) + ReadPieces(c, b)
  {
    if a == [] {
      assert a + b == b;
    } else {
      assert (a + b)[1..] == a[1..] + b && (a + b)[0] == a[0];
      WholePlus(c, a[1..], b);
    }
  }

  lemma {:induction false} DamagedPlus<E>(c: Codec<E>, a: seq<seq<Piece<E>>>, b: seq<seq<Piece<E>>>, i: nat)
    requires i < |a| && a[i] != [] && !(|a[i]| == 1 && Whole(c, a[i][0]))
    ensures ReadPieces(c, a + b) == ReadPieces(c, a)
  {
    assert (a + b)[1..] == a[1..] + b && (a + b)[0] == a[0];
    if i > 0 {
      assert a[1..][i - 1] == a[i];
      DamagedPlus(c, a[1..], b, i - 1);
    }
  }

  /** The file of a sequence of whole entries. */
  function LinesFor<E>(c: Codec<E>, es: seq<E>): seq<seq<Piece<E>>> {
    if es == [] then [] else [[Piece(es[0], |c.enc(es[0])|)]] + LinesFor(c, es[1..])
  }

  lemma {:induction false} LinesForRead<E>(c: Codec<E>, es: seq<E>)
    ensures ReadPieces(c, LinesFor(c, es)) == es && |LinesFor(c, es)| == |es|
    ensures forall i | 0 <= i < |es| :: |LinesFor(c, es)[i]| == 1 && Whole(c, LinesFor(c, es)[i][0])
  {
    if es != [] {
      LinesForRead(c, es[1..]);
      assert LinesFor(c, es)[1..] == LinesFor(c, es[1..]);
      assert es == [es[0]] + es[1..];
    }
  }

  /** After a complete append the file is closed; only its first new line can be glued to an old piece. */
  lemma {:induction false} AppendedIs<E>(c: Codec<E>, f: File<E>, es: seq<E>)
    requires es != []
    ensures Appended(c, f, es) == File(f.lines + [f.last + [Piece(es[0], |c.enc(es[0])|)]] + LinesFor(c, es[1..]), [])
    decreases |es|
  {
    var first := [f.last + [Piece(es[0], |c.enc(es[0])|)]];
    var g := File(f.lines + first, []);
    if |es| == 1 {
      assert f.lines + first + LinesFor(c, es[1..]) == f.lines + first;
    } else {
      AppendedIs(c, g, es[1..]);
      var next := [[Piece(es[1], |c.enc(es[1])|)]];
      assert [] + [Piece(es[1], |c.enc(es[1])|)] == [Piece(es[1], |c.enc(es[1])|)];
      assert LinesFor(c, es[1..]) == next + LinesFor(c, es[1..][1..]);
      assert g.lines + next + LinesFor(c, es[1..][1..]) == f.lines + first + (next + LinesFor(c, es[1..][1..]));
    }
  }
}
