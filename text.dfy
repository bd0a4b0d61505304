/** The String.prototype operations the import relies on: `includes` and `join`. */
module Text {

  /** `needle` occurs in `hay` at index `k`. */
  ghost predicate OccursAt(hay: string, needle: string, k: int) {
    0 <= k && k + |needle| <= |hay| && hay[k..k + |needle|] == needle
  }

  ghost predicate IsSubstring(needle: string, hay: string) {
    exists k :: OccursAt(hay, needle, k)
  }

  /** String.prototype.includes: a case-sensitive substring test. */
  function Includes(hay: string, needle: string): (b: bool)
    ensures b <==> IsSubstring(needle, hay)
    decreases |hay|
  {
    if needle <= hay then
      assert OccursAt(hay, needle, 0);
      true
    else if |hay| == 0 then
      false
    else
      SubstringOfTail(hay, needle);
      Includes(hay[1..], needle)
  }

  lemma {:induction false} SubstringOfTail(hay: string, needle: string)
    requires |hay| > 0 && !(needle <= hay)
    ensures IsSubstring(needle, hay) <==> IsSubstring(needle, hay[1..])
  {
    if IsSubstring(needle, hay) {
      var k :| OccursAt(hay, needle, k);
      assert hay[1..][k - 1..k - 1 + |needle|] == hay[k..k + |needle|];
      assert OccursAt(hay[1..], needle, k - 1);
    }
    if IsSubstring(needle, hay[1..]) {
      var k :| OccursAt(hay[1..], needle, k);
      assert hay[k + 1..k + 1 + |needle|] == hay[1..][k..k + |needle|];
      assert OccursAt(hay, needle, k + 1);
    }
  }

  /** Array.prototype.join. */
  function Join(xs: seq<string>, sep: string): string {
    if |xs| == 0 then ""
    else if |xs| == 1 then xs[0]
    else xs[0] + sep + Join(xs[1..], sep)
  }

  /** With a non-empty separator the join is empty exactly for `[]` and `[""]`. */
  lemma {:induction false} JoinEmpty(xs: seq<string>, sep: string)
    requires sep != ""
    ensures Join(xs, sep) == "" <==> xs == [] || xs == [""]
  {
    if |xs| >= 2 {
      assert |Join(xs, sep)| >= |sep| > 0;
    }
  }

  /** Each string of `xs` prefixed by `prefix`. */
  function Prefixed(prefix: string, xs: seq<string>): (r: seq<string>)
    ensures |r| == |xs|
    ensures forall i :: 0 <= i < |xs| ==> r[i] == prefix + xs[i]
  {
    seq(|xs|, i requires 0 <= i < |xs| => prefix + xs[i])
  }

  /** Prefixing a join whose separator ends in `prefix` gives the join of the prefixed items. */
  lemma {:induction false} JoinPrefixed(prefix: string, sep: string, xs: seq<string>)
    requires xs != []
    ensures prefix + Join(xs, sep + prefix) == Join(Prefixed(prefix, xs), sep)
    decreases |xs|
  {
    if |xs| >= 2 {
      JoinPrefixed(prefix, sep, xs[1..]);
      assert Prefixed(prefix, xs)[1..] == Prefixed(prefix, xs[1..]);
      calc {
        prefix + Join(xs, sep + prefix);
        prefix + (xs[0] + (sep + prefix) + Join(xs[1..], sep + prefix));
        (prefix + xs[0]) + sep + (prefix + Join(xs[1..], sep + prefix));
        Join(Prefixed(prefix, xs), sep);
      }
    }
  }
}
