/**
 * Wire field names of a map: `<name>_<tag>`, where the tag names the field's data type.
 * Mutators build them by concatenation; `split_type_and_name` takes them apart at the
 * LAST underscore, so a logical name may itself contain underscores.
 */
module FieldCodec {
  import opened Wrappers

  const Register: string := "register"
  const Flag: string := "flag"
  const Counter: string := "counter"
  const Map: string := "map"
  const Set: string := "set"

  /** A decoded wire name: the logical name and the tag, if there was an underscore. */
  datatype Split = Split(name: string, tag: Option<string>)

  /** `s.lastIndexOf(c)`: the position of the last occurrence of c, or -1. */
  function LastIndexOf(s: string, c: char): (i: int)
    ensures -1 <= i < |s|
    ensures i >= 0 ==> s[i] == c
    ensures forall j :: i < j < |s| ==> s[j] != c
  {
    if |s| == 0 then -1
    else if s[|s| - 1] == c then |s| - 1
    else LastIndexOf(s[..|s| - 1], c)
  }

  /** The wire name a mutator stores a field under: `field + "_" + tag`. */
  function Encode(name: string, tag: string): string
  {
    name + "_" + tag
  }

  /** `split_type_and_name`: split at the last underscore; no underscore gives no tag. */
  function SplitTypeAndName(field: string): (r: Split)
    ensures r.tag.None? <==> '_' !in field
    ensures r.tag.None? ==> r.name == field
    ensures r.tag.Some? ==> field == Encode(r.name, r.tag.value) && '_' !in r.tag.value
  {
    var idx := LastIndexOf(field, '_');
    if idx >= 0 then
      assert field == field[..idx] + "_" + field[idx + 1..];
      Split(field[..idx], Some(field[idx + 1..]))
    else
      Split(field, None)
  }

  /**
   * Round trip: a tag without underscores comes back out of its wire name together with
   * the logical name, even when the logical name contains underscores.
   */
  lemma SplitEncode(name: string, tag: string)
    requires '_' !in tag
    ensures SplitTypeAndName(Encode(name, tag)) == Split(name, Some(tag))
  {
    var field := Encode(name, tag);
    assert field[|name|] == '_';
    assert forall j :: |name| < j < |field| ==> field[j] == tag[j - |name| - 1];
    var idx := LastIndexOf(field, '_');
    assert idx == |name|;
    assert field[..idx] == name;
    assert field[idx + 1..] == tag;
  }

  /** Every tag the client writes is free of underscores, so every wire name it writes decodes. */
  lemma SplitEncodeTags(name: string)
    ensures SplitTypeAndName(Encode(name, Register)) == Split(name, Some(Register))
    ensures SplitTypeAndName(Encode(name, Flag)) == Split(name, Some(Flag))
    ensures SplitTypeAndName(Encode(name, Counter)) == Split(name, Some(Counter))
    ensures SplitTypeAndName(Encode(name, Map)) == Split(name, Some(Map))
    ensures SplitTypeAndName(Encode(name, Set)) == Split(name, Some(Set))
  {
    SplitEncode(name, Register);
    SplitEncode(name, Flag);
    SplitEncode(name, Counter);
    SplitEncode(name, Map);
    SplitEncode(name, Set);
  }

  /** The example of the last-underscore rule: "a_b_set" is the set field "a_b". */
  lemma SplitAtLastUnderscore()
    ensures SplitTypeAndName("a_b_set") == Split("a_b", Some("set"))
  {
    SplitEncode("a_b", "set");
  }
}
