/**
 * The `--tag key=value` helpers: the validator that decides which tag
 * arguments are accepted, and the parser that splits an accepted one.
 * `cli.rs` carries a verbatim private copy of both; this module stands for
 * both copies.
 */
module Utils {
  import opened Wrappers
  import opened Strings

  const TAG_FORMAT_ERROR: string := "tag has to be a <key>=<value> pair"

  /**
   * `parse_key_value_pair`: the first and the second `=`-separated pieces.
   * `None` stands for the panic of the second `expect`, which fires when
   * there is no `=` at all (the first piece always exists).
   */
  function ParseKeyValuePair(v: string): (r: Option<(string, string)>)
    ensures r.Some? <==> '=' in v
    ensures r.Some? ==> '=' !in r.value.0 && '=' !in r.value.1
    ensures r.Some? ==>
              var prefix := r.value.0 + "=" + r.value.1;
              prefix <= v && (|prefix| < |v| ==> v[|prefix|] == '=')
  {
    var parts := Split(v, '=');
    if |parts| < 2 then None
    else
      var i := IndexOf(v, '=');
      var rest := v[i + 1..];
      assert parts[1] == rest[..IndexOf(rest, '=')];
      assert v[..i] + "=" + parts[1] == v[..i + 1 + IndexOf(rest, '=')];
      Some((parts[0], parts[1]))
  }

  /**
   * `is_key_value_pair`: accepted when the split at `=` has a first and a
   * second piece and neither is empty. Put in terms of characters: the first
   * `=` is not at the start, and it is followed by a character other than `=`.
   */
  function IsKeyValuePair(v: string): (r: Result<(), string>)
    ensures r.Err? ==> r.error == TAG_FORMAT_ERROR
    ensures r.Ok? <==>
              var i := IndexOf(v, '=');
              0 < i && i + 1 < |v| && v[i + 1] != '='
  {
    var kv := Split(v, '=');
    if |kv| >= 2 && kv[0] != "" && kv[1] != "" then Ok(())
    else
      assert |kv| >= 2 ==> kv[1] == v[IndexOf(v, '=') + 1..][..IndexOf(v[IndexOf(v, '=') + 1..], '=')];
      Err(TAG_FORMAT_ERROR)
  }

  /** No `=`, an empty key and an empty value are each rejected. */
  lemma RejectedShapes(k: string, w: string)
    requires '=' !in k
    ensures IsKeyValuePair(k).Err?
    ensures IsKeyValuePair("=" + w).Err?
    ensures IsKeyValuePair(k + "=").Err?
  {
    IndexOfSeparator(k, '=', "");
    assert k + "=" == k + ['='] + "";
    IndexOfSeparator("", '=', w);
    assert "=" + w == "" + ['='] + w;
  }

  /** Only the first two pieces are looked at: anything may follow a second `=`. */
  lemma OnlyFirstTwoPiecesChecked(k: string, v: string, tail: string)
    requires k != "" && v != "" && '=' !in k && '=' !in v
    ensures IsKeyValuePair(k + "=" + v + "=" + tail).Ok?
    ensures ParseKeyValuePair(k + "=" + v + "=" + tail) == Some((k, v))
  {
    var s := k + "=" + v + "=" + tail;
    assert s == k + ['='] + (v + "=" + tail);
    IndexOfSeparator(k, '=', v + "=" + tail);
    assert s[|k| + 1..] == v + ['='] + tail;
    IndexOfSeparator(v, '=', tail);
    assert s[..|k|] == k;
    assert Split(s, '=')[1] == Split(s[|k| + 1..], '=')[0];
    assert (v + ['='] + tail)[..|v|] == v;
  }

  /** Every argument the validator accepts parses without panicking, into two non-empty pieces. */
  lemma ValidatedParses(v: string)
    requires IsKeyValuePair(v).Ok?
    ensures ParseKeyValuePair(v).Some?
    ensures ParseKeyValuePair(v).value.0 != "" && ParseKeyValuePair(v).value.1 != ""
  {
    var i := IndexOf(v, '=');
    var rest := v[i + 1..];
    assert Split(v, '=')[1] == rest[..IndexOf(rest, '=')];
    assert rest[0] != '=';
  }

  /** `key=value` is accepted and parses back to `(key, value)` when neither part holds `=`. */
  lemma RoundTrip(k: string, v: string)
    requires k != "" && v != "" && '=' !in k && '=' !in v
    ensures IsKeyValuePair(k + "=" + v).Ok?
    ensures ParseKeyValuePair(k + "=" + v) == Some((k, v))
  {
    var s := k + "=" + v;
    assert s == k + ['='] + v;
    IndexOfSeparator(k, '=', v);
    assert s[|k| + 1..] == v;
    assert IndexOf(v, '=') == |v| by {
      assert v[..|v|] == v;
    }
    assert s[..|k|] == k;
    assert Split(s, '=')[1] == Split(s[|k| + 1..], '=')[0];
  }
}
