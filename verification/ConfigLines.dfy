/** utils/redis/redisclient.go: configuration lines, their splitting, and their application to a
    server one after the other. */
module ConfigLines {
  import opened Wrappers
  import Text

  /** getConfigParameters (lines 327-333): parameter and value, or None for a malformed line. */
  function GetConfigParameters(config: string): Option<(string, string)>
  {
    var parts := Text.Split(config, ' ');
    if |parts| < 2 then None else Some((parts[0], Text.Join(parts[1..], ' ')))
  }

  lemma {:induction false} SplitLength(s: string, separator: char)
    ensures |Text.Split(s, separator)| == 1 <==> separator !in s
  {
    if s != "" {
      SplitLength(s[1..], separator);
      assert s == [s[0]] + s[1..];
    }
  }

  /** A line is malformed exactly when it has no space; otherwise it is the parameter, a space, and
      the value, and the parameter has no space. */
  lemma SplittingIsInverse(config: string)
    ensures GetConfigParameters(config).None? <==> ' ' !in config
    ensures GetConfigParameters(config).Some? ==>
      var (parameter, value) := GetConfigParameters(config).value;
      ' ' !in parameter && parameter + " " + value == config
  {
    var parts := Text.Split(config, ' ');
    SplitLength(config, ' ');
    Text.JoinSplit(config, ' ');
    Text.SplitFree(config, ' ');
    if |parts| >= 2 {
      assert parts[0] in parts;
      assert parts[0] + ([' '] + Text.Join(parts[1..], ' ')) == parts[0] + " " + Text.Join(parts[1..], ' ');
    }
  }

  /** That splitting is the only one: the first space separates. */
  lemma SplittingIsUnique(parameter: string, value: string)
    requires ' ' !in parameter
    ensures GetConfigParameters(parameter + " " + value) == Some((parameter, value))
  {
    var tail := " " + value;
    assert parameter + " " + value == parameter + tail;
    Text.SplitPrefix(parameter, tail, ' ');
    assert tail[1..] == value;
    assert Text.Split(tail, ' ') == [""] + Text.Split(value, ' ');
    assert parameter + "" == parameter;
    assert Text.Split(parameter + tail, ' ') == [parameter] + Text.Split(value, ' ');
    assert ([parameter] + Text.Split(value, ' '))[1..] == Text.Split(value, ' ');
    Text.JoinSplit(value, ' ');
  }

  /** A list of lines stops at the first one that is malformed or that the server rejects. */
  function StopAt(configs: seq<string>, accepts: nat -> bool, from: nat): (stop: nat)
    requires from <= |configs|
    ensures from <= stop <= |configs|
    ensures forall i | from <= i < stop :: GetConfigParameters(configs[i]).Some? && accepts(i)
    ensures stop < |configs| ==> GetConfigParameters(configs[stop]).None? || !accepts(stop)
    decreases |configs| - from
  {
    if from == |configs| then from
    else if GetConfigParameters(configs[from]).None? || !accepts(from) then from
    else StopAt(configs, accepts, from + 1)
  }

  /** The settings after all lines of a list. */
  function Applied(settings: map<string, string>, configs: seq<string>): map<string, string>
  {
    if configs == [] then settings
    else
      var before := Applied(settings, configs[..|configs| - 1]);
      match GetConfigParameters(configs[|configs| - 1])
      case None => before
      case Some((parameter, value)) => before[parameter := value]
  }

  predicate Sets(config: string, parameter: string)
  {
    GetConfigParameters(config).Some? && GetConfigParameters(config).value.0 == parameter
  }

  /** A parameter has the value of the last line that sets it, or what it had before. */
  lemma {:induction false} LastLineWins(settings: map<string, string>, configs: seq<string>, parameter: string)
    returns (last: Option<nat>)
    ensures last.None? ==>
      && (forall i | 0 <= i < |configs| :: !Sets(configs[i], parameter))
      && (parameter in Applied(settings, configs) <==> parameter in settings)
      && (parameter in settings ==> Applied(settings, configs)[parameter] == settings[parameter])
    ensures last.Some? ==>
      && last.value < |configs| && Sets(configs[last.value], parameter)
      && (forall i | last.value < i < |configs| :: !Sets(configs[i], parameter))
      && parameter in Applied(settings, configs)
      && configs[last.value] == parameter + " " + Applied(settings, configs)[parameter]
  {
    if configs == [] {
      last := None;
    } else {
      var n := |configs| - 1;
      if Sets(configs[n], parameter) {
        SplittingIsInverse(configs[n]);
        last := Some(n);
      } else {
        last := LastLineWins(settings, configs[..n], parameter);
      }
    }
  }

  class Server {
    var settings: map<string, string>

    constructor (settings: map<string, string>)
      ensures this.settings == settings
    {
      this.settings := settings;
    }

    /** SetCustomRedisConfig (lines 292-311): the settings are those of the lines before the first
        malformed or rejected one, and there is an error exactly if there is such a line. */
    method SetCustomRedisConfig(configs: seq<string>, accepts: nat -> bool) returns (ok: bool)
      modifies this
      ensures settings == Applied(old(settings), configs[..StopAt(configs, accepts, 0)])
      ensures ok <==> StopAt(configs, accepts, 0) == |configs|
    {
      var i := 0;
      while i < |configs|
        invariant i <= |configs|
        invariant StopAt(configs, accepts, i) == StopAt(configs, accepts, 0)
        invariant settings == Applied(old(settings), configs[..i])
      {
        var parameters := GetConfigParameters(configs[i]);
        if parameters.None? || !accepts(i) {
          return false;
        }
        assert configs[..i + 1][..i] == configs[..i];
        settings := settings[parameters.value.0 := parameters.value.1];
        i := i + 1;
      }
      ok := true;
    }
  }
}
