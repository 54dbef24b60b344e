/**
 * src/index.ts: parseArguments, which reads `--name=value` words from
 * the process arguments into a record.
 */
module Cli {

  /** Assigning a string to `__proto__` of a plain object is ignored by JavaScript. */
  const ProtoKey: string := "__proto__"

  /** `arg.replace(/^--/, '')`: one leading "--" is removed. */
  function StripDashes(arg: string): (r: string)
    ensures |arg| >= 2 && arg[..2] == "--" ==> r == arg[2..]
    ensures !(|arg| >= 2 && arg[..2] == "--") ==> r == arg
  {
    if |arg| >= 2 && arg[..2] == "--" then arg[2..] else arg
  }

  /** `s.split(sep)`: the pieces between the separators, at least one. */
  function Split(s: string, sep: char): (parts: seq<string>)
    ensures |parts| >= 1
    ensures forall i :: 0 <= i < |parts| ==> sep !in parts[i]
    ensures sep !in s ==> parts == [s]
  {
    if sep !in s then [s]
    else
      var i := FirstIndex(s, sep);
      [s[..i]] + Split(s[i + 1..], sep)
  }

  function FirstIndex(s: string, c: char): (i: nat)
    requires c in s
    ensures i < |s| && s[i] == c && c !in s[..i]
  {
    if s[0] == c then 0
    else
      assert c in s[1..];
      1 + FirstIndex(s[1..], c)
  }

  /** `argClean.split("=")[0] || ''`. */
  function ArgName(arg: string): string {
    Split(StripDashes(arg), '=')[0]
  }

  /** `argClean.split("=")[1] || ''`: the empty string when there is no '='. */
  function ArgValue(arg: string): string {
    var parts := Split(StripDashes(arg), '=');
    if |parts| >= 2 then parts[1] else ""
  }

  /** `parsedArgs[argName] = argValue`. */
  function Assign(record: map<string, string>, arg: string): map<string, string> {
    if ArgName(arg) == ProtoKey then record else record[ArgName(arg) := ArgValue(arg)]
  }

  /** The words the loop reads: indices 2, 4, 6, ... of args. */
  function Selected(args: seq<string>): (r: seq<string>)
    ensures |r| == if |args| <= 2 then 0 else (|args| - 1) / 2
    ensures forall k :: 0 <= k < |r| ==> r[k] == args[2 + 2 * k]
  {
    var n := if |args| <= 2 then 0 else (|args| - 1) / 2;
    seq(n, k requires 0 <= k < n => args[2 + 2 * k])
  }

  /** The record after assigning the words in order. */
  function Record(words: seq<string>): map<string, string> {
    if words == [] then map[] else Assign(Record(words[..|words| - 1]), words[|words| - 1])
  }

  /** The position of the last word that carries the name, or -1 when none does. */
  function LastNamed(words: seq<string>, name: string): (p: int)
    ensures -1 <= p < |words|
    ensures p >= 0 ==> ArgName(words[p]) == name
    ensures forall q :: p < q < |words| ==> ArgName(words[q]) != name
  {
    if words == [] then -1
    else if ArgName(words[|words| - 1]) == name then |words| - 1
    else
      var front := words[..|words| - 1];
      assert forall q :: 0 <= q < |front| ==> front[q] == words[q];
      LastNamed(front, name)
  }

  /**
   * A name is in the record exactly when some word carries it and it is
   * not `__proto__`, and then it holds the value of the last such word.
   */
  lemma {:induction false} RecordContents(words: seq<string>, name: string)
    ensures name in Record(words) <==> name != ProtoKey && LastNamed(words, name) >= 0
    ensures name in Record(words) ==> Record(words)[name] == ArgValue(words[LastNamed(words, name)])
  {
    if words != [] {
      var front := words[..|words| - 1];
      RecordContents(front, name);
      if ArgName(words[|words| - 1]) != name {
        assert LastNamed(words, name) == LastNamed(front, name);
        if LastNamed(front, name) >= 0 {
          assert words[LastNamed(front, name)] == front[LastNamed(front, name)];
        }
      }
    }
  }

  /** parseArguments (index.ts 5-16). */
  method ParseArguments(args: seq<string>) returns (parsed: map<string, string>)
    ensures parsed == Record(Selected(args))
  {
    parsed := map[];
    ghost var words := Selected(args);
    var i := 2;
    ghost var j := 0;
    while i < |args|
      invariant i == 2 + 2 * j && 0 <= j <= |words|
      invariant j < |words| <==> i < |args|
      invariant parsed == Record(words[..j])
    {
      var argClean := StripDashes(args[i]);
      var parts := Split(argClean, '=');
      var argName := parts[0];
      var argValue := if |parts| >= 2 then parts[1] else "";
      if argName != ProtoKey {
        parsed := parsed[argName := argValue];
      }
      RecordStep(words, j, args[i]);
      i := i + 2;
      j := j + 1;
    }
    assert words[..j] == words;
  }

  lemma RecordStep(words: seq<string>, j: int, arg: string)
    requires 0 <= j < |words| && words[j] == arg
    ensures Record(words[..j + 1]) == Assign(Record(words[..j]), arg)
  {
    assert words[..j + 1][..j] == words[..j];
  }

  /** With only the runtime and the script path there is nothing to read. */
  lemma ShortArgumentsGiveEmptyRecord(args: seq<string>)
    requires |args| <= 2
    ensures Record(Selected(args)) == map[]
  {
  }

  /** Only even positions from 2 on are read: replacing the word at any other position changes nothing. */
  lemma UnreadPositionsIgnored(args: seq<string>, p: nat, other: string)
    requires p < |args| && (p < 2 || p % 2 == 1)
    ensures Record(Selected(args[p := other])) == Record(Selected(args))
  {
    assert Selected(args[p := other]) == Selected(args);
  }

  /** `--name=value` is read back as that name and value, when neither contains '='. */
  lemma NameValueRoundTrip(name: string, value: string)
    requires '=' !in name && '=' !in value
    ensures ArgName("--" + name + "=" + value) == name
    ensures ArgValue("--" + name + "=" + value) == value
  {
    var arg := "--" + name + "=" + value;
    assert arg[..2] == "--";
    var clean := arg[2..];
    assert clean == name + "=" + value;
    SplitAtFirst(name, value);
  }

  /** Everything after a second '=' is dropped from the value. */
  lemma SecondEqualsDropsRest(name: string, value: string, rest: string)
    requires '=' !in name && '=' !in value
    ensures ArgValue("--" + name + "=" + value + "=" + rest) == value
  {
    var arg := "--" + name + "=" + value + "=" + rest;
    assert arg[..2] == "--";
    assert arg[2..] == name + "=" + (value + "=" + rest);
    SplitAtFirst(name, value + "=" + rest);
    SplitAtFirst(value, rest);
  }

  /** A word without '=' becomes a name with the empty value. */
  lemma NoEqualsGivesEmptyValue(arg: string)
    requires '=' !in StripDashes(arg)
    ensures ArgName(arg) == StripDashes(arg) && ArgValue(arg) == ""
  {
  }

  /** Only one leading "--" is removed: `----x` is read as the name `--x`. */
  lemma OneDashPairStripped(name: string)
    requires '=' !in name
    ensures ArgName("--" + name) == name
  {
    assert ("--" + name)[..2] == "--";
    assert ("--" + name)[2..] == name;
  }

  lemma SplitAtFirst(a: string, b: string)
    requires '=' !in a
    ensures Split(a + "=" + b, '=') == [a] + Split(b, '=')
  {
    var s := a + "=" + b;
    assert s[|a|] == '=';
    assert forall k :: 0 <= k < |a| ==> s[k] == a[k];
    var i := FirstIndex(s, '=');
    assert i == |a|;
    assert s[..i] == a;
    assert s[i + 1..] == b;
  }
}
