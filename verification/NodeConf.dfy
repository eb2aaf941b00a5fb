// The rewrite of node.conf by python/redis_cluster_recover.py:41, a sed substitution that keeps the
// first word of a line and puts the local address in the place of the second one.
module NodeConf {

  const ADDRESS := "127.0.0.1:6379@16379"

  /** The longest prefix without a space. */
  function Word(s: string): (word: string)
    ensures word <= s && ' ' !in word
    ensures |word| < |s| ==> s[|word|] == ' '
  {
    if s == "" || s[0] == ' ' then "" else [s[0]] + Word(s[1..])
  }

  /** The leftmost match starts at the line's beginning: its first word, a space, its second word. */
  function RewriteLine(line: string): string
  {
    var first := Word(line);
    if |first| == |line| then line
    else
      var second := Word(line[|first| + 1..]);
      first + " " + ADDRESS + line[|first| + 1 + |second|..]
  }

  function Rewrite(lines: seq<string>): (rewritten: seq<string>)
    ensures |rewritten| == |lines| && forall i | 0 <= i < |lines| :: rewritten[i] == RewriteLine(lines[i])
  {
    seq(|lines|, i requires 0 <= i < |lines| => RewriteLine(lines[i]))
  }

  /** A prefix without a space that is followed by a space, or by nothing, is the first word. */
  lemma {:induction false} WordIs(word: string, rest: string)
    requires ' ' !in word && (rest == "" || rest[0] == ' ')
    ensures Word(word + rest) == word
  {
    if word != "" {
      assert (word + rest)[1..] == word[1..] + rest;
      WordIs(word[1..], rest);
    } else {
      assert word + rest == rest;
    }
  }

  /** Only the text between the first and the second space is replaced: the first field and
      everything from the second space on are kept. */
  lemma RewriteReplacesTheSecondField(first: string, second: string, rest: string)
    requires ' ' !in first && ' ' !in second && (rest == "" || rest[0] == ' ')
    ensures RewriteLine(first + " " + second + rest) == first + " " + ADDRESS + rest
  {
    var line := first + " " + second + rest;
    assert line == first + (" " + second + rest);
    WordIs(first, " " + second + rest);
    assert line[|first| + 1..] == second + rest;
    WordIs(second, rest);
    assert line[|first| + 1 + |second|..] == rest;
  }

  lemma SplitOffWord(s: string) returns (word: string, rest: string)
    ensures word == Word(s) && s == word + rest && (rest == "" || rest[0] == ' ')
  {
    word := Word(s);
    rest := s[|word|..];
  }

  /** Every line with a space is of that form, and a line without one is left alone. */
  lemma RewriteCoversEveryLine(line: string) returns (first: string, second: string, rest: string)
    ensures ' ' !in line ==> RewriteLine(line) == line
    ensures ' ' in line ==>
      ' ' !in first && ' ' !in second && (rest == "" || rest[0] == ' ') && line == first + " " + second + rest
  {
    var tail;
    first, tail := SplitOffWord(line);
    if tail == "" {
      assert first == line;
      second, rest := "", "";
    } else {
      second, rest := SplitOffWord(tail[1..]);
      assert tail == " " + (second + rest);
      assert first + tail == first + " " + second + rest;
    }
  }

  /** Rewriting a line twice is rewriting it once. */
  lemma RewriteLineTwice(line: string)
    ensures RewriteLine(RewriteLine(line)) == RewriteLine(line)
  {
    var first, second, rest := RewriteCoversEveryLine(line);
    if ' ' in line {
      RewriteReplacesTheSecondField(first, second, rest);
      RewriteReplacesTheSecondField(first, ADDRESS, rest);
    }
  }

  lemma RewriteTwice(lines: seq<string>)
    ensures Rewrite(Rewrite(lines)) == Rewrite(lines)
  {
    forall i | 0 <= i < |lines| ensures Rewrite(Rewrite(lines))[i] == Rewrite(lines)[i] {
      RewriteLineTwice(lines[i]);
    }
  }
}
