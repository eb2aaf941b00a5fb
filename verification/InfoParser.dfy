/** The parser of Redis' INFO text in controllers/redisclone_controller.go (lines 127-138 and
    206-217). */
module InfoParser {
  import opened Wrappers
  import Text

  /** A line counts if it splits into two parts at its colons. */
  function Entry(line: string): Option<(string, string)>
  {
    var parts := Text.Split(line, ':');
    if |parts| == 2 then Some((parts[0], parts[1])) else None
  }

  /** Later lines overwrite earlier ones. */
  function Table(lines: seq<string>): map<string, string>
  {
    if lines == [] then map[]
    else
      var table := Table(lines[..|lines| - 1]);
      match Entry(lines[|lines| - 1])
      case None => table
      case Some((key, value)) => table[key := value]
  }

  function Lookup(table: map<string, string>, key: string): string
  {
    if key in table then table[key] else ""
  }

  /** The loop of both handlers. */
  method Parse(text: string) returns (table: map<string, string>)
    ensures table == Table(Text.Split(text, '\n'))
  {
    table := map[];
    var lines := Text.Split(text, '\n');
    var i := 0;
    while i < |lines|
      invariant i <= |lines|
      invariant table == Table(lines[..i])
    {
      assert lines[..i + 1][..i] == lines[..i];
      var parts := Text.Split(lines[i], ':');
      if |parts| == 2 {
        table := table[parts[0] := parts[1]];
      }
      i := i + 1;
    }
    assert lines[..|lines|] == lines;
  }

  /** The line holds exactly one colon, between this key and this value. */
  predicate IsEntry(line: string, key: string, value: string)
  {
    line == key + ":" + value && ':' !in key && ':' !in value
  }

  lemma EntryMeansOneColon(line: string, key: string, value: string)
    ensures Entry(line) == Some((key, value)) <==> IsEntry(line, key, value)
  {
    var parts := Text.Split(line, ':');
    Text.JoinSplit(line, ':');
    Text.SplitFree(line, ':');
    if |parts| == 2 {
      assert parts[0] in parts && parts[1] in parts;
      assert parts[1..] == [parts[1]];
      assert line == parts[0] + ([':'] + parts[1]) == parts[0] + ":" + parts[1];
    }
    if IsEntry(line, key, value) {
      assert Text.AllFree([key, value], ':');
      Text.SplitJoin([key, value], ':');
      assert [key, value][1..] == [value];
      assert Text.Join([key, value], ':') == key + ([':'] + value) == line;
    }
  }

  predicate HasKey(line: string, key: string)
  {
    Entry(line).Some? && Entry(line).value.0 == key
  }

  /** For any text, a key is looked up in the last line that is an entry of that key; without
      such a line the answer is the empty string. */
  lemma {:induction false} LookupFindsLastEntry(lines: seq<string>, key: string) returns (last: Option<nat>)
    ensures last.None? ==> Lookup(Table(lines), key) == "" && forall i | 0 <= i < |lines| :: !HasKey(lines[i], key)
    ensures last.Some? ==>
      && last.value < |lines| && IsEntry(lines[last.value], key, Lookup(Table(lines), key))
      && forall i | last.value < i < |lines| :: !HasKey(lines[i], key)
  {
    if lines == [] {
      last := None;
    } else {
      var line := lines[|lines| - 1];
      if HasKey(line, key) {
        EntryMeansOneColon(line, key, Entry(line).value.1);
        last := Some(|lines| - 1);
      } else {
        last := LookupFindsLastEntry(lines[..|lines| - 1], key);
      }
    }
  }

  // ---------------------------------------------------------------- printing and parsing

  function Line(pair: (string, string)): string
  {
    pair.0 + ":" + pair.1
  }

  function Lines(pairs: seq<(string, string)>): (lines: seq<string>)
    ensures |lines| == |pairs| && forall i | 0 <= i < |pairs| :: lines[i] == Line(pairs[i])
  {
    seq(|pairs|, i requires 0 <= i < |pairs| => Line(pairs[i]))
  }

  function Print(pairs: seq<(string, string)>): string
  {
    Text.Join(Lines(pairs), '\n')
  }

  /** Neither a colon nor a line break in it. */
  predicate Clean(pair: (string, string))
  {
    ':' !in pair.0 && ':' !in pair.1 && '\n' !in pair.0 && '\n' !in pair.1
  }

  function LastWins(pairs: seq<(string, string)>): map<string, string>
  {
    if pairs == [] then map[] else LastWins(pairs[..|pairs| - 1])[pairs[|pairs| - 1].0 := pairs[|pairs| - 1].1]
  }

  lemma {:induction false} TableOfLines(pairs: seq<(string, string)>)
    requires forall i | 0 <= i < |pairs| :: Clean(pairs[i])
    ensures Table(Lines(pairs)) == LastWins(pairs)
  {
    if pairs != [] {
      var n := |pairs| - 1;
      TableOfLines(pairs[..n]);
      assert Lines(pairs)[..n] == Lines(pairs[..n]);
      EntryMeansOneColon(Line(pairs[n]), pairs[n].0, pairs[n].1);
    }
  }

  /** Parsing what has been printed gives the last value of each key. */
  lemma PrintThenParse(pairs: seq<(string, string)>)
    requires forall i | 0 <= i < |pairs| :: Clean(pairs[i])
    ensures Table(Text.Split(Print(pairs), '\n')) == LastWins(pairs)
  {
    TableOfLines(pairs);
    if pairs == [] {
      assert Text.Split("", '\n') == [""];
      assert [""][..0] == [];
      assert Text.Split("", ':') == [""];
    } else {
      assert Text.AllFree(Lines(pairs), '\n');
      Text.SplitJoin(Lines(pairs), '\n');
    }
  }

  function WithReturn(pairs: seq<(string, string)>): (ended: seq<(string, string)>)
    ensures |ended| == |pairs| && forall i | 0 <= i < |pairs| :: ended[i] == (pairs[i].0, pairs[i].1 + "\r")
  {
    seq(|pairs|, i requires 0 <= i < |pairs| => (pairs[i].0, pairs[i].1 + "\r"))
  }

  /** Redis ends its lines with CR LF; only the LF is split on, so every value keeps a CR. */
  lemma ReturnsStayInValues(pairs: seq<(string, string)>, key: string)
    requires forall i | 0 <= i < |pairs| :: Clean(pairs[i])
    requires key in LastWins(pairs)
    ensures Lookup(Table(Text.Split(Print(WithReturn(pairs)), '\n')), key) == LastWins(pairs)[key] + "\r"
  {
    PrintThenParse(WithReturn(pairs));
    LastWinsWithReturn(pairs, key);
  }

  lemma {:induction false} LastWinsWithReturn(pairs: seq<(string, string)>, key: string)
    requires key in LastWins(pairs)
    ensures key in LastWins(WithReturn(pairs)) && LastWins(WithReturn(pairs))[key] == LastWins(pairs)[key] + "\r"
  {
    var n := |pairs| - 1;
    assert WithReturn(pairs)[..n] == WithReturn(pairs[..n]);
    if pairs[n].0 != key {
      LastWinsWithReturn(pairs[..n], key);
    }
  }
}
