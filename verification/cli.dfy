/**
 * The tag map of a benchmark invocation: every `--tag` argument has passed
 * the validator before it gets here, and the parsed pairs are inserted into
 * a HashMap in argument order, so a later pair with the same key replaces an
 * earlier one.
 */
module Cli {
  import opened Utils

  /** Every raw tag passed `is_key_value_pair`, the validator the argument parser runs on it. */
  predicate AllValidated(raw: seq<string>)
  {
    forall i :: 0 <= i < |raw| ==> IsKeyValuePair(raw[i]).Ok?
  }

  /** The parsed pair of a validated tag. */
  function Pair(tag: string): (kv: (string, string))
    requires IsKeyValuePair(tag).Ok?
    ensures kv.0 != "" && kv.1 != ""
  {
    ValidatedParses(tag);
    ParseKeyValuePair(tag).value
  }

  /** The map after inserting the pairs of `raw` one after another. */
  function TagsFrom(raw: seq<string>): map<string, string>
    requires AllValidated(raw)
  {
    if raw == [] then map[]
    else
      var kv := Pair(raw[|raw| - 1]);
      TagsFrom(raw[..|raw| - 1])[kv.0 := kv.1]
  }

  /** `tags.extend(tags_raw.map(parse_key_value_pair))`, starting from an empty map. */
  method CollectTags(raw: seq<string>) returns (tags: map<string, string>)
    requires AllValidated(raw)
    ensures tags == TagsFrom(raw)
  {
    tags := map[];
    var i := 0;
    while i < |raw|
      invariant 0 <= i <= |raw|
      invariant tags == TagsFrom(raw[..i])
    {
      var kv := ParseKeyValuePair(raw[i]);
      ValidatedParses(raw[i]);
      tags := tags[kv.value.0 := kv.value.1];
      assert raw[..i + 1][..i] == raw[..i];
      i := i + 1;
    }
    assert raw[..i] == raw;
  }

  /** The keys of the map are exactly the keys of the tags. */
  lemma {:induction false} TagsFromKeys(raw: seq<string>, key: string)
    requires AllValidated(raw)
    ensures key in TagsFrom(raw) <==> exists i :: 0 <= i < |raw| && Pair(raw[i]).0 == key
  {
    if raw != [] {
      var init := raw[..|raw| - 1];
      TagsFromKeys(init, key);
      assert forall i :: 0 <= i < |init| ==> init[i] == raw[i];
    }
  }

  /** A key maps to the value of the last tag that has it. */
  lemma {:induction false} TagsFromLastWins(raw: seq<string>, i: nat)
    requires AllValidated(raw)
    requires i < |raw|
    requires forall j :: i < j < |raw| ==> Pair(raw[j]).0 != Pair(raw[i]).0
    ensures Pair(raw[i]).0 in TagsFrom(raw)
    ensures TagsFrom(raw)[Pair(raw[i]).0] == Pair(raw[i]).1
  {
    if i < |raw| - 1 {
      var init := raw[..|raw| - 1];
      assert init[i] == raw[i];
      TagsFromLastWins(init, i);
    }
  }

  /** `--tag key=value` yields the map {"key": "value"}. */
  lemma SingleTag()
    ensures TagsFrom(["key=value"]) == map["key" := "value"]
  {
    RoundTrip("key", "value");
    assert "key" + "=" + "value" == "key=value";
    assert Pair("key=value") == ("key", "value");
    assert ["key=value"][..0] == [];
  }

  /** Two tags with different keys give a map with two entries. */
  lemma TwoDistinctKeys(first: string, second: string)
    requires IsKeyValuePair(first).Ok? && IsKeyValuePair(second).Ok?
    requires Pair(first).0 != Pair(second).0
    ensures |TagsFrom([first, second])| == 2
  {
    var raw := [first, second];
    assert raw[..1] == [first];
    assert [first][..0] == [];
    assert TagsFrom([first]) == TagsFrom([first][..0])[Pair(first).0 := Pair(first).1];
  }

  /** `--tag k1=v1 --tag k2=v2` with different keys gives a map with two entries. */
  lemma TwoTagsTwoEntries(k1: string, v1: string, k2: string, v2: string)
    requires k1 != "" && v1 != "" && '=' !in k1 && '=' !in v1
    requires k2 != "" && v2 != "" && '=' !in k2 && '=' !in v2
    requires k1 != k2
    ensures |TagsFrom([k1 + "=" + v1, k2 + "=" + v2])| == 2
  {
    RoundTrip(k1, v1);
    RoundTrip(k2, v2);
    TwoDistinctKeys(k1 + "=" + v1, k2 + "=" + v2);
  }
}
