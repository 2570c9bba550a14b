/** The durable files of one node: the log as text, the saved term and vote, and the saved snapshot. */
module WalObject {
  import opened Wrappers
  import opened LogFile
  import opened LogRecovery
  import opened RaftNode
  import MS = MvccSnapshot

  datatype SavedState = SavedState(currentTerm: nat, votedFor: Option<Id>)

  datatype SavedSnapshot = SavedSnapshot(index: nat, term: nat, state: MS.Snapshot)

  class Wal {
    const codec: Codec<Entry>
    var text: Text
    var state: Option<SavedState>
    var snapshot: Option<SavedSnapshot>

    constructor (codec: Codec<Entry>)
      requires IsCodec(codec)
      ensures this.codec == codec && Valid() && Tidy() && Contents() == [] && state == None && snapshot == None
    {
      this.codec := codec;
      text, state, snapshot := "", None, None;
      new;
      WrittenIs(codec, []);
      RewriteReads(codec, []);
    }

    /** The text is what some complete, torn and glued appends left. */
    ghost predicate Valid()
      reads this`text
    {
      IsCodec(codec) && exists f :: FileOk(codec, f) && TextOf(codec, f) == text
    }

    /** What reading the log file gives. */
    ghost function Contents(): seq<Entry>
      reads this`text
    {
      Read(codec, text)
    }

    /** The file ends in a newline and holds nothing but whole entries. */
    ghost predicate Tidy()
      reads this`text
    {
      text == Payload(codec, Contents())
    }

    method LoadState() returns (s: SavedState)
      ensures s == if state.Some? then state.value else SavedState(0, None)
    {
      s := match state case Some(saved) => saved case None => SavedState(0, None);
    }

    method SaveState(s: SavedState)
      modifies this`state
      ensures state == Some(s)
    {
      state := Some(s);
    }

    /**
     A tidy file gains exactly the entries. An append to any other file is never read back, may lose
     the last entry that was, and leaves a file that no append mends.
     */
    method Append(entries: seq<Entry>)
      requires Valid()
      modifies this`text
      ensures Valid() && Tidy() == old(Tidy())
      ensures old(Tidy()) ==> Contents() == old(Contents()) + entries
      ensures !old(Tidy()) ==> Contents() <= old(Contents()) && |old(Contents())| <= |Contents()| + 1
      ensures entries == [] ==> text == old(text)
    {
      hide Lines, ReadLines;
      if entries == [] {
        assert Contents() + [] == Contents();
        return;
      }
      ghost var f :| FileOk(codec, f) && TextOf(codec, f) == text;
      AppendText(codec, f, entries);
      AppendSurvives(codec, f, entries);
      if Tidy() { PayloadPlus(codec, Contents(), entries); } else { AppendLost(codec, f, entries); }
      text := text + Payload(codec, entries);
    }

    /** Line by line up to the first that does not parse, whatever the file holds. */
    method ReadLog() returns (entries: seq<Entry>)
      ensures entries == Contents()
    {
      entries := [];
      var lines := Lines(text);
      var i := 0;
      assert lines[0..] == lines;
      while i < |lines|
        invariant i <= |lines|
        invariant entries + ReadLines(codec, lines[i..]) == ReadLines(codec, lines)
      {
        assert lines[i..][0] == lines[i] && lines[i..][1..] == lines[i + 1..];
        if lines[i] != "" {
          var parsed := codec.dec(lines[i]);
          if parsed == None {
            assert entries + [] == entries;
            return;
          }
          assert entries + ([parsed.value] + ReadLines(codec, lines[i + 1..]))
              == entries + [parsed.value] + ReadLines(codec, lines[i + 1..]);
          entries := entries + [parsed.value];
        }
        i := i + 1;
      }
      assert lines[i..] == [] && entries + [] == entries;
    }

    method Rewrite(entries: seq<Entry>)
      requires IsCodec(codec)
      modifies this`text
      ensures Valid() && Tidy() && Contents() == entries
    {
      WrittenIs(codec, entries);
      RewriteReads(codec, entries);
      text := Payload(codec, entries);
    }

    method SaveSnapshot(s: SavedSnapshot)
      modifies this`snapshot
      ensures snapshot == Some(s)
    {
      snapshot := Some(s);
    }
  }
}
