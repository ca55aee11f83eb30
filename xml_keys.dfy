/**
 * `extractXMLKeys` (utils/data.go): recovers the order of the element names
 * of an XML document.  The regular expression that finds the tags is not
 * modelled; its matches are given as a sequence, each with the three capture
 * groups that can hold a tag name.
 */
module XmlKeys {
  import opened Text

  /**
   * One match of the tag pattern: the name of a `<tag>content</tag>` pair, of
   * a self-closing `<tag/>`, or of an opening `<tag>`; the groups that did not
   * take part are empty.
   */
  datatype TagMatch = TagMatch(paired: string, selfClosing: string, opening: string)

  /** The tag name of a match: the first non-empty of the three groups. */
  function TagName(m: TagMatch): string
  {
    if m.paired != "" then m.paired
    else if m.selfClosing != "" then m.selfClosing
    else m.opening
  }

  /** Names kept: non-empty, not the `?xml` declaration, and without a namespace prefix. */
  predicate Accepted(name: string)
  {
    name != "" && name != "?xml" && ':' !in name
  }

  function TagNames(ms: seq<TagMatch>): (ns: seq<string>)
    ensures |ns| == |ms| && forall i :: 0 <= i < |ms| ==> ns[i] == TagName(ms[i])
  {
    seq(|ms|, i requires 0 <= i < |ms| => TagName(ms[i]))
  }

  predicate NoDuplicates(s: seq<string>)
  {
    forall i, j :: 0 <= i < j < |s| ==> s[i] != s[j]
  }

  /** Position of the first occurrence of `x` in `s`, or `|s|` when there is none. */
  function FirstIndex(s: seq<string>, x: string): (i: nat)
    ensures i <= |s| && x !in s[..i]
    ensures i < |s| <==> x in s
    ensures i < |s| ==> s[i] == x
  {
    if s == [] then 0
    else if s[0] == x then 0
    else
      var j := FirstIndex(s[1..], x);
      assert s[..j + 1] == [s[0]] + s[1..][..j];
      j + 1
  }

  lemma FirstIndexBefore(s: seq<string>, x: string, n: nat)
    requires n <= |s| && x in s[..n]
    ensures FirstIndex(s, x) < n
  {
  }

  lemma FirstIndexAt(s: seq<string>, x: string, n: nat)
    requires n < |s| && s[n] == x && x !in s[..n]
    ensures FirstIndex(s, x) == n
  {
  }

  /** Appending the name at `i`, when it is accepted and was not seen before, keeps the order invariant. */
  lemma AppendFresh(names: seq<string>, keys: seq<string>, i: nat)
    requires i < |names| && Accepted(names[i]) && names[i] !in keys
    requires forall k :: k in keys <==> k in names[..i] && Accepted(k)
    requires forall a, b :: 0 <= a < b < |keys| ==> FirstIndex(names, keys[a]) < FirstIndex(names, keys[b])
    ensures var keys' := keys + [names[i]];
      forall a, b :: 0 <= a < b < |keys'| ==> FirstIndex(names, keys'[a]) < FirstIndex(names, keys'[b])
  {
    FirstIndexAt(names, names[i], i);
    forall a | 0 <= a < |keys|
      ensures FirstIndex(names, keys[a]) < i
    {
      assert keys[a] in keys;
      FirstIndexBefore(names, keys[a], i);
    }
  }

  /**
   * The element names in first-occurrence order, each once, leaving out
   * empty names, `?xml` and names with a `:`.
   */
  method ExtractXMLKeys(ms: seq<TagMatch>) returns (keys: seq<string>)
    ensures NoDuplicates(keys)
    ensures forall k :: k in keys <==> k in TagNames(ms) && Accepted(k)
    ensures forall a, b :: 0 <= a < b < |keys| ==> FirstIndex(TagNames(ms), keys[a]) < FirstIndex(TagNames(ms), keys[b])
  {
    ghost var names := TagNames(ms);
    keys := [];
    var seen: map<string, bool> := map[];
    var i := 0;
    while i < |ms|
      invariant 0 <= i <= |ms|
      invariant forall k :: k in seen <==> k in keys
      invariant forall k :: k in seen ==> seen[k]
      invariant NoDuplicates(keys)
      invariant forall k :: k in keys <==> k in names[..i] && Accepted(k)
      invariant forall a, b :: 0 <= a < b < |keys| ==> FirstIndex(names, keys[a]) < FirstIndex(names, keys[b])
    {
      var m := ms[i];
      var tagName := "";
      if m.paired != "" {
        tagName := m.paired;
      } else if m.selfClosing != "" {
        tagName := m.selfClosing;
      } else if m.opening != "" {
        tagName := m.opening;
      }
      assert tagName == names[i];
      assert names[..i + 1] == names[..i] + [names[i]];
      if tagName != "" && tagName != "?xml" && ':' !in tagName {
        if !(tagName in seen && seen[tagName]) {
          AppendFresh(names, keys, i);
          keys := keys + [tagName];
          seen := seen[tagName := true];
        }
      }
      i := i + 1;
    }
    assert names[..|ms|] == names;
  }
}
