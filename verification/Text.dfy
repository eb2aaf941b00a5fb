/** Splitting and joining on a one-character separator, as Go's strings.Split and
    strings.Join and Python's str.split and str.join do it. */
module Text {

  /** The empty string splits into one empty part, so a split is never empty. */
  function Split(s: string, separator: char): (parts: seq<string>)
    ensures parts != []
  {
    if s == "" then [""]
    else
      var rest := Split(s[1..], separator);
      if s[0] == separator then [""] + rest
      else [[s[0]] + rest[0]] + rest[1..]
  }

  function Join(parts: seq<string>, separator: char): string
  {
    if parts == [] then ""
    else if |parts| == 1 then parts[0]
    else parts[0] + [separator] + Join(parts[1..], separator)
  }

  predicate AllFree(parts: seq<string>, separator: char)
  {
    forall part | part in parts :: separator !in part
  }

  /** The text after its first character, put back in front of the split of the rest. */
  lemma JoinFirst(c: char, parts: seq<string>, separator: char)
    requires parts != []
    ensures Join([[c] + parts[0]] + parts[1..], separator) == [c] + Join(parts, separator)
  {
    var extended := [[c] + parts[0]] + parts[1..];
    assert extended[1..] == parts[1..];
    if |parts| > 1 {
      var tail := [separator] + Join(parts[1..], separator);
      assert ([c] + parts[0]) + tail == [c] + (parts[0] + tail);
    }
  }

  /** Joining undoes splitting. */
  lemma {:induction false} JoinSplit(s: string, separator: char)
    ensures Join(Split(s, separator), separator) == s
  {
    if s != "" {
      var rest := Split(s[1..], separator);
      JoinSplit(s[1..], separator);
      assert s == [s[0]] + s[1..];
      if s[0] == separator {
        assert ([""] + rest)[1..] == rest;
      } else {
        JoinFirst(s[0], rest, separator);
      }
    }
  }

  /** No part of a split holds the separator. */
  lemma {:induction false} SplitFree(s: string, separator: char)
    ensures AllFree(Split(s, separator), separator)
  {
    if s != "" {
      var rest := Split(s[1..], separator);
      SplitFree(s[1..], separator);
      assert rest[0] in rest;
    }
  }

  /** A prefix without the separator stays in front of the first part. */
  lemma {:induction false} SplitPrefix(prefix: string, s: string, separator: char)
    requires separator !in prefix
    ensures Split(prefix + s, separator) == [prefix + Split(s, separator)[0]] + Split(s, separator)[1..]
  {
    if prefix == "" {
      assert prefix + s == s;
      assert "" + Split(s, separator)[0] == Split(s, separator)[0];
    } else {
      assert (prefix + s)[1..] == prefix[1..] + s;
      SplitPrefix(prefix[1..], s, separator);
      assert prefix == [prefix[0]] + prefix[1..];
      assert [prefix[0]] + (prefix[1..] + Split(s, separator)[0]) == prefix + Split(s, separator)[0];
    }
  }

  /** Splitting undoes joining for any non-empty list of separator-free parts. */
  lemma {:induction false} SplitJoin(parts: seq<string>, separator: char)
    requires parts != [] && AllFree(parts, separator)
    ensures Split(Join(parts, separator), separator) == parts
  {
    if |parts| == 1 {
      SplitPrefix(parts[0], "", separator);
      assert parts[0] + "" == parts[0];
    } else {
      SplitJoin(parts[1..], separator);
      assert parts[0] in parts && separator !in parts[0];
      var tail := [separator] + Join(parts[1..], separator);
      assert tail[1..] == Join(parts[1..], separator);
      SplitPrefix(parts[0], tail, separator);
      assert Join(parts, separator) == parts[0] + tail;
      assert Split(tail, separator) == [""] + parts[1..];
      assert parts[0] + "" == parts[0] && parts == [parts[0]] + parts[1..];
    }
  }
}
