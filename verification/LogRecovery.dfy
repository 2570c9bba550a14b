/** Recovery from the log file: what a torn append leaves readable, and what a later append does to it. */
module LogRecovery {
  import opened LogFile

  // ---- whole files ---------------------------------------------------------

  function Written<E>(c: Codec<E>, es: seq<E>): File<E> {
    File(LinesFor(c, es), [])
  }

  predicate OneWhole<E>(c: Codec<E>, line: seq<Piece<E>>) {
    |line| == 1 && Whole(c, line[0])
  }

  predicate AllWhole<E>(c: Codec<E>, lines: seq<seq<Piece<E>>>) {
    forall i | 0 <= i < |lines| :: OneWhole(c, lines[i])
  }

  lemma EmptyFile<E>(c: Codec<E>)
    ensures FileOk(c, Written(c, [])) && TextOf(c, Written(c, [])) == "" && Clean(c, Written(c, []))
  {
    var none: seq<Piece<E>> := [];
    assert LineText(c, none) == "";
  }

  lemma WrittenIs<E(!new)>(c: Codec<E>, es: seq<E>)
    requires IsCodec(c)
    ensures FileOk(c, Written(c, es)) && Clean(c, Written(c, es)) && TextOf(c, Written(c, es)) == Payload(c, es)
  {
    EmptyFile(c);
    LinesForRead(c, es);
    if es != [] {
      var none := Written(c, []);
      AppendText(c, none, es);
      AppendedIs(c, none, es);
      var p := Piece(es[0], |c.enc(es[0])|);
      assert none.last + [p] == [p];
      assert none.lines + [[p]] + LinesFor(c, es[1..]) == LinesFor(c, es);
      assert "" + Payload(c, es) == Payload(c, es);
    }
  }

  /** Reading back what one write or rewrite left gives the entries. */
  lemma RewriteReads<E(!new)>(c: Codec<E>, es: seq<E>)
    requires IsCodec(c)
    ensures Read(c, Payload(c, es)) == es
  {
    WrittenIs(c, es);
    ReadIs(c, Written(c, es));
    CleanRead(c, Written(c, es));
    LinesForRead(c, es);
  }

  /** What the finished lines give, up to the first damaged one. */
  function Intact<E>(c: Codec<E>, f: File<E>): seq<E> {
    ReadPieces(c, f.lines)
  }

  lemma CleanRead<E(!new)>(c: Codec<E>, f: File<E>)
    requires IsCodec(c) && FileOk(c, f) && Clean(c, f)
    ensures ReadPieces(c, AllLines(f)) == Intact(c, f)
  {
    var just := [f.last];
    assert just[1..] == [];
    ReadPiecesPlus(c, f.lines, just);
    assert ReadPieces(c, just) == ReadPieces(c, just[1..]) == [];
  }

  lemma NotWhole<E>(c: Codec<E>, f: File<E>, more: seq<seq<Piece<E>>>)
    requires FileOk(c, f) && !AllWhole(c, f.lines)
    ensures ReadPieces(c, f.lines + more) == ReadPieces(c, f.lines)
  {
    var i :| 0 <= i < |f.lines| && !OneWhole(c, f.lines[i]);
    assert f.lines[i] != [];
    ReadPiecesPlus(c, f.lines, more);
  }

  /** Appending to a clean file adds the entries; appending to a damaged one adds nothing and loses what was glued. */
  lemma {:induction false} AppendReads<E(!new)>(c: Codec<E>, f: File<E>, gs: seq<E>)
    requires IsCodec(c) && FileOk(c, f) && gs != []
    ensures Read(c, TextOf(c, f) + Payload(c, gs)) == if Clean(c, f) then Read(c, TextOf(c, f)) + gs else Intact(c, f)
  {
    AppendText(c, f, gs);
    ReadIs(c, f);
    ReadIs(c, Appended(c, f, gs));
    AppendedIs(c, f, gs);
    assert AllLines(Appended(c, f, gs)) == f.lines + Added(c, f, gs);
    AddedReads(c, f, gs);
    if Clean(c, f) { CleanRead(c, f); }
  }

  lemma AddedReads<E(!new)>(c: Codec<E>, f: File<E>, gs: seq<E>)
    requires IsCodec(c) && FileOk(c, f) && gs != []
    ensures ReadPieces(c, f.lines + Added(c, f, gs)) == if Clean(c, f) then Intact(c, f) + gs else Intact(c, f)
  {
    if !AllWhole(c, f.lines) {
      NotWhole(c, f, Added(c, f, gs));
      assert !Clean(c, f);
    } else {
      ReadPiecesPlus(c, f.lines, Added(c, f, gs));
      if f.last == [] {
        AddedClean(c, f, gs);
      } else {
        assert |Added(c, f, gs)[0]| > 1;
      }
    }
  }

  /** The lines an append adds, the first glued to what was there after the last newline. */
  function Added<E>(c: Codec<E>, f: File<E>, gs: seq<E>): seq<seq<Piece<E>>>
    requires gs != []
  {
    [f.last + [Piece(gs[0], |c.enc(gs[0])|)]] + LinesFor(c, gs[1..]) + [[]]
  }

  lemma AddedClean<E(!new)>(c: Codec<E>, f: File<E>, gs: seq<E>)
    requires IsCodec(c) && gs != [] && f.last == []
    ensures ReadPieces(c, Added(c, f, gs)) == gs
  {
    var p := Piece(gs[0], |c.enc(gs[0])|);
    assert f.last + [p] == [p];
    assert [[p]] + LinesFor(c, gs[1..]) == LinesFor(c, gs);
    LinesForRead(c, gs);
    WrittenIs(c, gs);
    CleanRead(c, Written(c, gs));
    assert Added(c, f, gs) == AllLines(Written(c, gs));
  }

  lemma ReadKeepsIntact<E(!new)>(c: Codec<E>, f: File<E>)
    requires IsCodec(c) && FileOk(c, f)
    ensures Intact(c, f) <= Read(c, TextOf(c, f)) && |Read(c, TextOf(c, f))| <= |Intact(c, f)| + 1
  {
    ReadIs(c, f);
    if AllWhole(c, f.lines) {
      ReadPiecesPlus(c, f.lines, [f.last]);
    } else {
      NotWhole(c, f, [f.last]);
    }
  }

  lemma CleanText<E(!new)>(c: Codec<E>, f: File<E>)
    requires IsCodec(c) && FileOk(c, f)
    ensures Clean(c, f) <==> TextOf(c, f) == Payload(c, Read(c, TextOf(c, f)))
  {
    ReadIs(c, f);
    if Clean(c, f) {
      CleanRead(c, f);
      CleanIsWritten(c, f.lines);
      WrittenIs(c, Intact(c, f));
    } else {
      NotItsReading(c, f);
    }
  }

  lemma NotItsReading<E(!new)>(c: Codec<E>, f: File<E>)
    requires IsCodec(c) && FileOk(c, f) && !Clean(c, f)
    ensures TextOf(c, f) != Payload(c, Read(c, TextOf(c, f)))
  {
    var es := Read(c, TextOf(c, f));
    EmptyText(c, f);
    PayloadPlus(c, es, es);
    RewriteReads(c, es + es);
    ReadKeepsIntact(c, f);
    assert |Intact(c, f)| <= |es|;
    if es != [] { AppendReads(c, f, es); }
  }

  lemma {:induction false} CleanIsWritten<E>(c: Codec<E>, lines: seq<seq<Piece<E>>>)
    requires AllWhole(c, lines)
    ensures lines == LinesFor(c, ReadPieces(c, lines))
  {
    if lines != [] {
      assert OneWhole(c, lines[0]);
      forall i | 0 <= i < |lines[1..]| ensures OneWhole(c, lines[1..][i]) { assert OneWhole(c, lines[i + 1]); }
      CleanIsWritten(c, lines[1..]);
      var es := ReadPieces(c, lines);
      assert es[1..] == ReadPieces(c, lines[1..]);
      assert lines[0] == [Piece(es[0], |c.enc(es[0])|)];
      assert lines == [lines[0]] + lines[1..];
    }
  }

  lemma {:induction false} PayloadPlus<E>(c: Codec<E>, a: seq<E>, b: seq<E>)
    ensures Payload(c, a + b) == Payload(c, a) + Payload(c, b)
  {
    if a == [] {
      assert a + b == b;
    } else {
      assert (a + b)[1..] == a[1..] + b;
      PayloadPlus(c, a[1..], b);
    }
  }

  lemma EmptyText<E(!new)>(c: Codec<E>, f: File<E>)
    requires IsCodec(c) && FileOk(c, f)
    ensures TextOf(c, f) == "" ==> Clean(c, f)
  {
    if f.lines == [] && f.last != [] { LineTextClean(c, f.last); }
  }

  /**
   Whatever complete, torn and glued appends a file is made of: the next append is read back after
   what was there before if and only if the file is exactly what writing out its reading would give.
   */
  lemma AppendSurvives<E(!new)>(c: Codec<E>, f: File<E>, gs: seq<E>)
    requires IsCodec(c) && FileOk(c, f) && gs != []
    ensures var raw := TextOf(c, f);
            Read(c, raw + Payload(c, gs)) == Read(c, raw) + gs <==> raw == Payload(c, Read(c, raw))
  {
    CleanText(c, f);
    AppendReads(c, f, gs);
    ReadKeepsIntact(c, f);
  }

  /**
   What an append to a damaged file leaves: none of its entries is read back, the last entry read
   before may be lost as well, and no later append mends it.
   */
  lemma AppendLost<E(!new)>(c: Codec<E>, f: File<E>, gs: seq<E>)
    requires IsCodec(c) && FileOk(c, f) && gs != [] && TextOf(c, f) != Payload(c, Read(c, TextOf(c, f)))
    ensures var before, raw := Read(c, TextOf(c, f)), TextOf(c, f) + Payload(c, gs);
            && Read(c, raw) <= before && |before| <= |Read(c, raw)| + 1
            && raw != Payload(c, Read(c, raw))
  {
    var g := Appended(c, f, gs);
    CleanText(c, f);
    AppendReads(c, f, gs);
    ReadKeepsIntact(c, f);
    AppendText(c, f, gs);
    CleanText(c, g);
    AppendedIs(c, f, gs);
    assert g.lines[..|f.lines|] == f.lines && |g.lines[|f.lines|]| == |f.last| + 1;
  }

  // ---- a torn append -------------------------------------------------------

  /** How many entries of an append are complete, but perhaps for the newline, in its first `n` characters. */
  function Complete<E>(c: Codec<E>, es: seq<E>, n: nat): (m: nat)
    ensures m <= |es|
    decreases |es|
  {
    if es == [] || n < |c.enc(es[0])| then 0
    else if n == |c.enc(es[0])| then 1
    else 1 + Complete(c, es[1..], n - |c.enc(es[0])| - 1)
  }

  /** `Complete` is the largest count whose lines fit, the last newline aside. */
  lemma {:induction false} CompleteIs<E(!new)>(c: Codec<E>, es: seq<E>, n: nat)
    requires IsCodec(c) && n <= |Payload(c, es)|
    ensures var m := Complete(c, es, n);
            && |Payload(c, es[..m])| <= n + 1
            && (m < |es| ==> n + 1 < |Payload(c, es[..m + 1])|)
    decreases |es|
  {
    if es != [] {
      assert Line(c, es[0]);
      var m := Complete(c, es, n);
      if n < |c.enc(es[0])| {
        assert es[..1] == [es[0]] && es[..1][1..] == [];
      } else if n == |c.enc(es[0])| {
        assert es[..1][1..] == [];
        if |es| > 1 {
          assert Line(c, es[1]);
          assert es[..2][1..] == [es[1]];
        }
      } else {
        CompleteIs(c, es[1..], n - |c.enc(es[0])| - 1);
        assert es[..m][1..] == es[1..][..m - 1];
        if m < |es| { assert es[..m + 1][1..] == es[1..][..m]; }
      }
    }
  }

  /** A crash in the middle of an append leaves the old entries and the longest complete run of new ones. */
  lemma {:induction false} TornReads<E(!new)>(c: Codec<E>, f: File<E>, es: seq<E>, n: nat)
    requires IsCodec(c) && FileOk(c, f) && Clean(c, f) && n <= |Payload(c, es)|
    ensures Read(c, TextOf(c, f) + Payload(c, es)[..n]) == Read(c, TextOf(c, f)) + es[..Complete(c, es, n)]
    decreases |es|
  {
    TornText(c, f, es, n);
    ReadIs(c, f);
    ReadIs(c, Torn(c, f, es, n));
    CleanRead(c, f);
    TornPieces(c, f, es, n);
  }

  lemma {:induction false} TornPieces<E(!new)>(c: Codec<E>, f: File<E>, es: seq<E>, n: nat)
    requires IsCodec(c) && FileOk(c, f) && Clean(c, f) && n <= |Payload(c, es)|
    ensures ReadPieces(c, AllLines(Torn(c, f, es, n))) == Intact(c, f) + es[..Complete(c, es, n)]
    decreases |es|
  {
    if es == [] || n == 0 {
      if es != [] { assert Line(c, es[0]); }
      CleanRead(c, f);
      assert Intact(c, f) + [] == Intact(c, f);
    } else {
      assert Line(c, es[0]);
      var whole := |c.enc(es[0])|;
      if n <= whole {
        TornLast(c, f, es[0], n);
      } else {
        var g := OneMore(c, f, es[0]);
        var m := Complete(c, es[1..], n - whole - 1);
        TornPieces(c, g, es[1..], n - whole - 1);
        hide ReadPieces, Clean, FileOk, IsCodec, Intact, AllLines;
        OneFurther(Intact(c, f), es, m);
      }
    }
  }

  lemma OneFurther<E>(a: seq<E>, es: seq<E>, m: nat)
    requires es != [] && m < |es|
    ensures a + [es[0]] + es[1..][..m] == a + es[..m + 1]
  {
  }

  /** A clean file with one more whole line. */
  lemma OneMore<E(!new)>(c: Codec<E>, f: File<E>, e: E) returns (g: File<E>)
    requires IsCodec(c) && FileOk(c, f) && Clean(c, f)
    ensures g == File(f.lines + [f.last + [Piece(e, |c.enc(e)|)]], [])
    ensures FileOk(c, g) && Clean(c, g) && Intact(c, g) == Intact(c, f) + [e]
  {
    var p := Piece(e, |c.enc(e)|);
    assert f.last + [p] == [p];
    g := File(f.lines + [[p]], []);
    TextWhole(c, f, e);
    ReadPiecesPlus(c, f.lines, [[p]]);
    var one := [[p]];
    assert one[1..] == [] && ReadPieces(c, one) == [e] + [];
  }

  lemma TornLast<E(!new)>(c: Codec<E>, f: File<E>, e: E, n: nat)
    requires IsCodec(c) && FileOk(c, f) && Clean(c, f) && 0 < n <= |c.enc(e)|
    ensures ReadPieces(c, f.lines + [f.last + [Piece(e, n)]]) == Intact(c, f) + if n == |c.enc(e)| then [e] else []
  {
    var p := Piece(e, n);
    var one := [[p]];
    assert f.last + [p] == [p];
    assert one[1..] == [];
    ReadPiecesPlus(c, f.lines, one);
    assert ReadPieces(c, one) == if n == |c.enc(e)| then [e] else [];
  }

  /**
   Torn exactly before its newline, an entry is read back at restart and then lost to the next
   append, together with everything appended from then on.
   */
  lemma VanishingEntry<E(!new)>(c: Codec<E>, es: seq<E>, e: E, gs: seq<E>)
    requires IsCodec(c) && gs != []
    ensures Read(c, Payload(c, es) + c.enc(e)) == es + [e]
    ensures Read(c, Payload(c, es) + c.enc(e) + Payload(c, gs)) == es
  {
    assert Line(c, e);
    WrittenIs(c, es);
    var f := Written(c, es);
    var p := Piece(e, |c.enc(e)|);
    TextPush(c, f, p);
    assert PieceText(c, p) == c.enc(e);
    RewriteReads(c, es);
    var just := [e];
    assert just[1..] == [];
    var n := |c.enc(e)|;
    assert Payload(c, just)[..n] == c.enc(e);
    TornReads(c, f, just, n);
    AppendReads(c, f.(last := f.last + [p]), gs);
    LinesForRead(c, es);
  }

  // ---- any run -------------------------------------------------------------

  /** What happens to the file: a complete append, one cut short by a crash after `n` characters, or a rewrite. */
  datatype Step<E> = Append(es: seq<E>) | TornAppend(es: seq<E>, n: nat) | Rewrite(es: seq<E>)

  function FileAfter<E>(c: Codec<E>, steps: seq<Step<E>>): Text {
    if steps == [] then ""
    else
      var before := FileAfter(c, steps[..|steps| - 1]);
      match steps[|steps| - 1]
      case Append(es) => before + Payload(c, es)
      case TornAppend(es, n) => before + (if n <= |Payload(c, es)| then Payload(c, es)[..n] else Payload(c, es))
      case Rewrite(es) => Payload(c, es)
  }

  /** The log the process holds in memory: what it appended, or after a crash what it read. */
  function Memory<E>(c: Codec<E>, steps: seq<Step<E>>): seq<E> {
    if steps == [] then []
    else
      match steps[|steps| - 1]
      case Append(es) => Memory(c, steps[..|steps| - 1]) + es
      case TornAppend(_, _) => Read(c, FileAfter(c, steps))
      case Rewrite(es) => es
  }

  lemma {:induction false} FileIsPieces<E(!new)>(c: Codec<E>, steps: seq<Step<E>>) returns (f: File<E>)
    requires IsCodec(c)
    ensures FileOk(c, f) && TextOf(c, f) == FileAfter(c, steps)
    decreases |steps|
  {
    if steps == [] {
      EmptyFile(c);
      f := Written(c, []);
    } else {
      var g := FileIsPieces(c, steps[..|steps| - 1]);
      match steps[|steps| - 1] {
        case Append(es) =>
          AppendText(c, g, es);
          f := Appended(c, g, es);
        case TornAppend(es, n) =>
          var k := if n <= |Payload(c, es)| then n else |Payload(c, es)|;
          TornText(c, g, es, k);
          assert Payload(c, es)[..|Payload(c, es)|] == Payload(c, es);
          f := Torn(c, g, es, k);
        case Rewrite(es) =>
          WrittenIs(c, es);
          f := Written(c, es);
      }
    }
  }

  /** The file reads back as the log in memory. */
  ghost predicate Faithful<E>(c: Codec<E>, steps: seq<Step<E>>, i: nat) {
    i <= |steps| ==> Read(c, FileAfter(c, steps[..i])) == Memory(c, steps[..i])
  }

  /** A step that appends finds a file that is exactly its own reading written out. */
  ghost predicate Tidy<E>(c: Codec<E>, steps: seq<Step<E>>, i: nat) {
    i < |steps| && steps[i].Append? && steps[i].es != [] ==>
      var raw := FileAfter(c, steps[..i]);
      raw == Payload(c, Read(c, raw))
  }

  lemma StepFaithful<E(!new)>(c: Codec<E>, steps: seq<Step<E>>, i: nat)
    requires IsCodec(c) && i < |steps| && Faithful(c, steps, i)
    ensures Faithful(c, steps, i + 1) <==> Tidy(c, steps, i)
  {
    var f := FileIsPieces(c, steps[..i]);
    assert steps[..i + 1][..i] == steps[..i];
    match steps[i] {
      case Append(es) =>
        if es != [] {
          AppendSurvives(c, f, es);
        } else {
          assert TextOf(c, f) + "" == TextOf(c, f);
          assert Memory(c, steps[..i]) + [] == Memory(c, steps[..i]);
        }
      case TornAppend(_, _) =>
      case Rewrite(es) => RewriteReads(c, es);
    }
  }

  lemma {:induction false} PrefixFaithful<E(!new)>(c: Codec<E>, steps: seq<Step<E>>, i: nat)
    requires IsCodec(c) && i <= |steps| && forall j: nat | j < i :: Tidy(c, steps, j)
    ensures Faithful(c, steps, i)
  {
    if i == 0 {
      RewriteReads<E>(c, []);
    } else {
      PrefixFaithful(c, steps, i - 1);
      StepFaithful(c, steps, i - 1);
    }
  }

  /**
   Over any run of appends, crashes and rewrites, the file reads back as the log in memory at every
   point if and only if no entries were ever appended to a file with a torn tail.
   */
  lemma RunFaithful<E(!new)>(c: Codec<E>, steps: seq<Step<E>>)
    requires IsCodec(c)
    ensures (forall i: nat :: Faithful(c, steps, i)) <==> (forall i: nat :: Tidy(c, steps, i))
  {
    if forall i: nat :: Tidy(c, steps, i) {
      forall i: nat ensures Faithful(c, steps, i) {
        if i <= |steps| { PrefixFaithful(c, steps, i); }
      }
    } else {
      var i: nat :| !Tidy(c, steps, i);
      if Faithful(c, steps, i) { StepFaithful(c, steps, i); }
    }
  }
}
