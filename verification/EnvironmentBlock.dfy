/** The environment handed to the Windows child: NAME=value entries, each ended by
    a NUL, the whole ended by one more NUL. Decoding it returns the same map. */
module EnvironmentBlock {
  import opened Common

  const NUL: char := '\0'
  const EQUALS: char := '='

  type Environment = map<string, string>

  predicate ValidEntry(key: string, value: string) {
    key != "" && EQUALS !in key && NUL !in key && NUL !in value
  }

  predicate ValidEnvironment(env: Environment) {
    forall key :: key in env ==> ValidEntry(key, env[key])
  }

  /** A listing of all names of `env`, each once, as sorting them produces. */
  ghost predicate Lists(order: seq<string>, env: Environment) {
    && (forall key :: key in order <==> key in env)
    && (forall i, j :: 0 <= i < j < |order| ==> order[i] != order[j])
  }

  function Join(parts: seq<string>): string {
    if parts == [] then ""
    else if |parts| == 1 then parts[0]
    else parts[0] + [NUL] + Join(parts[1..])
  }

  function Parts(env: Environment, order: seq<string>): seq<string>
    requires forall key :: key in order ==> key in env
  {
    seq(|order|, i requires 0 <= i < |order| => order[i] + [EQUALS] + env[order[i]])
  }

  function Block(env: Environment, order: seq<string>): string
    requires forall key :: key in order ==> key in env
  {
    Join(Parts(env, order)) + [NUL, NUL]
  }

  /** Builds the block in the order given by `order`, or refuses a name or value
      that the block cannot carry. */
  method Build(env: Environment, order: seq<string>) returns (r: Result<string>)
    requires Lists(order, env)
    ensures r.Ok? <==> ValidEnvironment(env)
    ensures r.Ok? ==> r.value == Block(env, order)
  {
    var parts := [];
    for i := 0 to |order|
      invariant parts == Parts(env, order)[..i]
      invariant forall j :: 0 <= j < i ==> ValidEntry(order[j], env[order[j]])
    {
      var key := order[i];
      assert key in order;
      var value := env[key];
      if key == "" || EQUALS in key || NUL in key || NUL in value {
        return Refused;
      }
      parts := parts + [key + [EQUALS] + value];
    }
    assert parts == Parts(env, order);
    return Ok(Join(parts) + [NUL, NUL]);
  }

  // ------------------------------------------------------------------ decoding

  /** The text before the first `stop`, and the text after it. */
  function Cut(text: string, stop: char): (r: (string, string))
    ensures |r.1| <= |text|
    ensures text != "" ==> |r.1| < |text|
  {
    if text == "" then ("", "")
    else if text[0] == stop then ("", text[1..])
    else var r := Cut(text[1..], stop); ([text[0]] + r.0, r.1)
  }

  /** Reads entries up to the empty one and splits each at its first equals sign. */
  function Decode(text: string): Environment
    decreases |text|
  {
    if text == "" || text[0] == NUL then map[]
    else
      var entry := Cut(text, NUL);
      var pair := Cut(entry.0, EQUALS);
      Decode(entry.1)[pair.0 := pair.1]
  }

  lemma {:induction false} CutAt(before: string, stop: char, after: string)
    requires stop !in before
    ensures Cut(before + [stop] + after, stop) == (before, after)
  {
    var text := before + [stop] + after;
    if before != "" {
      assert text[1..] == before[1..] + [stop] + after;
      CutAt(before[1..], stop, after);
      assert [text[0]] + before[1..] == before;
    } else {
      assert text[1..] == after;
    }
  }

  /** The entries of `order`, each with its own NUL. */
  function Entries(env: Environment, order: seq<string>): string
    requires forall key :: key in order ==> key in env
  {
    if order == [] then ""
    else order[0] + [EQUALS] + env[order[0]] + [NUL] + Entries(env, order[1..])
  }

  lemma {:induction false} BlockIsEntries(env: Environment, order: seq<string>)
    requires forall key :: key in order ==> key in env
    requires order != []
    ensures Block(env, order) == Entries(env, order) + [NUL]
  {
    var parts := Parts(env, order);
    var first := order[0] + [EQUALS] + env[order[0]];
    if |order| == 1 {
      assert Entries(env, order[1..]) == "";
      assert Entries(env, order) == first + [NUL];
      assert Block(env, order) == first + [NUL, NUL];
    } else {
      BlockIsEntries(env, order[1..]);
      assert parts[1..] == Parts(env, order[1..]);
      assert Block(env, order) == first + [NUL] + Block(env, order[1..]);
    }
  }

  lemma {:induction false} DecodeEntries(env: Environment, order: seq<string>)
    requires forall key :: key in order ==> key in env && ValidEntry(key, env[key])
    ensures Decode(Entries(env, order) + [NUL]) == map key | key in order :: env[key]
  {
    if order != [] {
      var key, value, rest := order[0], env[order[0]], Entries(env, order[1..]) + [NUL];
      var text := Entries(env, order) + [NUL];
      var entry := key + [EQUALS] + value;
      assert text == entry + [NUL] + rest;
      assert text[0] == key[0] && key[0] in key;
      CutAt(entry, NUL, rest);
      CutAt(key, EQUALS, value);
      DecodeEntries(env, order[1..]);
      assert Decode(text) == Decode(rest)[key := value];
    }
  }

  /** Decoding the block of any environment that can be built returns it. */
  lemma BlockRoundTrip(env: Environment, order: seq<string>)
    requires Lists(order, env) && ValidEnvironment(env)
    ensures Decode(Block(env, order)) == env
  {
    if order == [] {
      assert env == map[];
      assert Block(env, order)[0] == NUL;
    } else {
      BlockIsEntries(env, order);
      DecodeEntries(env, order);
      assert (map key | key in order :: env[key]) == env;
    }
  }
}
