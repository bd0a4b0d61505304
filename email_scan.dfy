/** cleanEmailAddresses (services/notion.js:84-90): the global regex
    `[\w.-]+@[\w.-]+\.[a-zA-Z]{2,}` run over a header, then de-duplicated through a Set.
    The scanner below follows the backtracking regex engine: the leftmost start that can
    match, the local part as far as it goes, the longest domain part that is still followed
    by a dot and two letters, then every following letter; the next search starts where the
    previous match ended. */
module EmailScan {
  import opened Wrappers
  import opened Seqs
  import opened Text

  /** `\w` in a non-Unicode JavaScript regex. */
  predicate IsWordChar(c: char) {
    ('a' <= c <= 'z') || ('A' <= c <= 'Z') || ('0' <= c <= '9') || c == '_'
  }

  /** `[\w.-]` */
  predicate IsAddressChar(c: char) {
    IsWordChar(c) || c == '.' || c == '-'
  }

  /** `[a-zA-Z]` */
  predicate IsLetter(c: char) {
    ('a' <= c <= 'z') || ('A' <= c <= 'Z')
  }

  /** The end of the longest run of address characters starting at `i`. */
  function AddressRunEnd(s: string, i: nat): (j: nat)
    requires i <= |s|
    ensures i <= j <= |s|
    ensures forall k :: i <= k < j ==> IsAddressChar(s[k])
    ensures j < |s| ==> !IsAddressChar(s[j])
    decreases |s| - i
  {
    if i < |s| && IsAddressChar(s[i]) then AddressRunEnd(s, i + 1) else i
  }

  /** The end of the longest run of letters starting at `i`. */
  function LetterRunEnd(s: string, i: nat): (j: nat)
    requires i <= |s|
    ensures i <= j <= |s|
    ensures forall k :: i <= k < j ==> IsLetter(s[k])
    ensures j < |s| ==> !IsLetter(s[j])
    decreases |s| - i
  {
    if i < |s| && IsLetter(s[i]) then LetterRunEnd(s, i + 1) else i
  }

  /** `\.[a-zA-Z]{2,}` can start at `p`. */
  predicate TldAt(s: string, p: int) {
    0 <= p && p + 2 < |s| && s[p] == '.' && IsLetter(s[p + 1]) && IsLetter(s[p + 2])
  }

  /** The largest `p` in `[lo, hi)` at which a top-level domain can start. */
  function LastTld(s: string, lo: nat, hi: nat): (r: Option<nat>)
    requires hi <= |s|
    ensures r.Some? ==> lo <= r.value < hi && TldAt(s, r.value)
                        && forall q :: r.value < q < hi ==> !TldAt(s, q)
    ensures r.None? ==> forall q :: lo <= q < hi ==> !TldAt(s, q)
    decreases hi
  {
    if hi <= lo then None
    else if TldAt(s, hi - 1) then Some(hi - 1)
    else LastTld(s, lo, hi - 1)
  }

  /** What the regex accepts: a non-empty local part, `@`, a non-empty domain part, a dot and
      at least two letters, where the parts are made of `[\w.-]`. */
  ghost predicate EmailShaped(m: string) {
    exists at, dot :: && 0 < at && at + 1 < dot && dot + 2 < |m|
                      && m[at] == '@' && m[dot] == '.'
                      && (forall k :: 0 <= k < at ==> IsAddressChar(m[k]))
                      && (forall k :: at < k < dot ==> IsAddressChar(m[k]))
                      && (forall k :: dot < k < |m| ==> IsLetter(m[k]))
  }

  /** The end of the match the regex finds when it starts at `i`, if it finds one there. */
  function MatchAt(s: string, i: nat): (r: Option<nat>)
    requires i <= |s|
    ensures r.Some? ==> i < r.value <= |s| && EmailShaped(s[i..r.value])
  {
    var at := AddressRunEnd(s, i);
    if at == i || at == |s| || s[at] != '@' then None
    else
      var domainEnd := AddressRunEnd(s, at + 1);
      match LastTld(s, at + 2, domainEnd)
      case None => None
      case Some(dot) =>
        var end := LetterRunEnd(s, dot + 1);
        MatchShaped(s, i, at, dot, end);
        Some(end)
  }

  lemma {:induction false} MatchShaped(s: string, i: nat, at: nat, dot: nat, end: nat)
    requires i < at < dot < end <= |s| && at + 2 <= dot && dot + 2 < end
    requires s[at] == '@' && s[dot] == '.'
    requires forall k :: i <= k < at ==> IsAddressChar(s[k])
    requires forall k :: at < k < dot ==> IsAddressChar(s[k])
    requires forall k :: dot < k < end ==> IsLetter(s[k])
    ensures EmailShaped(s[i..end])
  {
    var m := s[i..end];
    assert forall k :: 0 <= k < |m| ==> m[k] == s[i + k];
    assert m[at - i] == '@' && m[dot - i] == '.';
    assert forall k :: 0 <= k < at - i ==> IsAddressChar(m[k]);
    assert forall k :: at - i < k < dot - i ==> IsAddressChar(m[k]);
    assert forall k :: dot - i < k < |m| ==> IsLetter(m[k]);
  }

  /** The scanner misses no address: when an address-shaped stretch (local part, `@`, domain
      part, dot, two or more letters) starts at `i`, the regex matches there, possibly ending
      elsewhere, as backtracking picks the last top-level dot. With MatchShaped this is the
      converse of MatchAt's ensures. */
  lemma {:induction false} MatchAtComplete(s: string, i: nat, at: nat, dot: nat, end: nat)
    requires i < at && at + 1 < dot && dot + 2 < end <= |s|
    requires s[at] == '@' && s[dot] == '.'
    requires forall k :: i <= k < at ==> IsAddressChar(s[k])
    requires forall k :: at < k < dot ==> IsAddressChar(s[k])
    requires forall k :: dot < k < end ==> IsLetter(s[k])
    ensures MatchAt(s, i).Some?
  {
    assert AddressRunEnd(s, i) == at;
    var domainEnd := AddressRunEnd(s, at + 1);
    assert dot + 2 < domainEnd;
    assert TldAt(s, dot);
    assert LastTld(s, at + 2, domainEnd).Some?;
  }

  /** `s.match(regex)` with the global flag, searching from `i`. */
  function MatchAll(s: string, i: nat): (r: seq<string>)
    requires i <= |s|
    ensures forall k :: 0 <= k < |r| ==> EmailShaped(r[k]) && IsSubstring(r[k], s)
    decreases |s| - i
  {
    if i == |s| then []
    else
      match MatchAt(s, i)
      case None => MatchAll(s, i + 1)
      case Some(end) =>
        assert OccursAt(s, s[i..end], i);
        [s[i..end]] + MatchAll(s, end)
  }

  /** cleanEmailAddresses */
  function CleanEmailAddresses(header: string): (r: seq<string>)
    ensures Distinct(r)
    ensures forall k :: 0 <= k < |r| ==> EmailShaped(r[k]) && IsSubstring(r[k], header)
  {
    Dedup(MatchAll(header, 0))
  }

  /** Exactly the matched addresses, each once, in order of first occurrence; no match, no address. */
  lemma {:induction false} CleanedAreDistinctMatches(header: string)
    ensures forall k :: 0 <= k < |CleanEmailAddresses(header)| ==> CleanEmailAddresses(header)[k] in MatchAll(header, 0)
    ensures forall k :: 0 <= k < |MatchAll(header, 0)| ==> MatchAll(header, 0)[k] in CleanEmailAddresses(header)
    ensures forall a, b :: 0 <= a < b < |CleanEmailAddresses(header)| ==>
              IndexOf(MatchAll(header, 0), CleanEmailAddresses(header)[a])
              < IndexOf(MatchAll(header, 0), CleanEmailAddresses(header)[b])
    ensures MatchAll(header, 0) == [] ==> CleanEmailAddresses(header) == []
  {
    DedupFirstOccurrenceOrder(MatchAll(header, 0));
  }

  /** A stretch without `@` whose last character cannot continue an address yields no match. */
  lemma {:induction false} NoAddressWithoutAt(s: string, i: nat, j: nat)
    requires i <= j <= |s|
    requires forall k :: i <= k < j ==> s[k] != '@'
    requires i == j || !IsAddressChar(s[j - 1])
    ensures MatchAll(s, i) == MatchAll(s, j)
    decreases j - i
  {
    if i < j {
      var at := AddressRunEnd(s, i);
      assert MatchAt(s, i) == None;
      NoAddressWithoutAt(s, i + 1, j);
    }
  }

  /** The character runs the scanner finds in `a@x.com>`. */
  lemma {:induction false} SampleRuns(s: string, i: nat)
    requires i + 8 <= |s|
    requires s[i] == 'a' && s[i + 1] == '@' && s[i + 2] == 'x' && s[i + 3] == '.'
    requires s[i + 4] == 'c' && s[i + 5] == 'o' && s[i + 6] == 'm' && s[i + 7] == '>'
    ensures AddressRunEnd(s, i) == i + 1 && AddressRunEnd(s, i + 2) == i + 7
    ensures LetterRunEnd(s, i + 4) == i + 7
  {
    assert AddressRunEnd(s, i + 1) == i + 1;
    assert AddressRunEnd(s, i + 7) == i + 7;
    assert LetterRunEnd(s, i + 7) == i + 7;
  }

  lemma {:induction false} SampleTld(s: string, i: nat)
    requires i + 8 <= |s|
    requires s[i + 3] == '.' && s[i + 4] == 'c' && s[i + 5] == 'o' && s[i + 6] == 'm' && s[i + 7] == '>'
    ensures LastTld(s, i + 2, i + 7) == Some(i + 3)
  {
    assert !TldAt(s, i + 6) && !TldAt(s, i + 5) && !TldAt(s, i + 4);
    assert TldAt(s, i + 3);
  }

  /** `a@x.com` followed by `>` is matched whole. */
  lemma {:induction false} SampleAddressMatches(s: string, i: nat)
    requires i + 8 <= |s|
    requires s[i] == 'a' && s[i + 1] == '@' && s[i + 2] == 'x' && s[i + 3] == '.'
    requires s[i + 4] == 'c' && s[i + 5] == 'o' && s[i + 6] == 'm' && s[i + 7] == '>'
    ensures MatchAt(s, i) == Some(i + 7) && s[i..i + 7] == "a@x.com"
  {
    SampleRuns(s, i);
    SampleTld(s, i);
  }

  /** A match at `i` ending at `end` is the first address found from `i`. */
  lemma {:induction false} MatchAllAtMatch(s: string, i: nat, end: nat)
    requires i < |s| && MatchAt(s, i) == Some(end)
    ensures MatchAll(s, i) == [s[i..end]] + MatchAll(s, end)
  {
  }

  /** The header `A <a@x.com>, B <a@x.com>`, given character by character. */
  ghost predicate IsSampleHeader(s: string) {
    |s| == 24 && forall k :: 0 <= k < 24 ==> s[k] == "A <a@x.com>, B <a@x.com>"[k]
  }

  lemma {:induction false} SampleSecondMatch(s: string)
    requires IsSampleHeader(s)
    ensures MatchAll(s, 16) == ["a@x.com"]
  {
    assert s[16] == 'a' && s[17] == '@' && s[18] == 'x' && s[19] == '.' && s[20] == 'c' && s[21] == 'o' && s[22] == 'm' && s[23] == '>';
    SampleAddressMatches(s, 16);
    NoAddressWithoutAt(s, 23, 24);
  }

  lemma {:induction false} SampleFirstMatch(s: string)
    requires IsSampleHeader(s)
    ensures MatchAll(s, 0) == ["a@x.com"] + MatchAll(s, 16)
  {
    SampleLead(s);
    SampleFirstAddress(s);
    SampleGap(s);
  }

  lemma {:induction false} SampleLead(s: string)
    requires IsSampleHeader(s)
    ensures MatchAll(s, 0) == MatchAll(s, 3)
  {
    assert s[0] == 'A' && s[1] == ' ' && s[2] == '<' && s[3] == 'a';
    NoAddressWithoutAt(s, 0, 3);
  }

  lemma {:induction false} SampleFirstAddress(s: string)
    requires IsSampleHeader(s)
    ensures MatchAll(s, 3) == ["a@x.com"] + MatchAll(s, 10)
  {
    assert s[3] == 'a' && s[4] == '@' && s[5] == 'x' && s[6] == '.' && s[7] == 'c' && s[8] == 'o' && s[9] == 'm' && s[10] == '>';
    SampleAddressMatches(s, 3);
    MatchAllAtMatch(s, 3, 10);
  }

  lemma {:induction false} SampleGap(s: string)
    requires IsSampleHeader(s)
    ensures MatchAll(s, 10) == MatchAll(s, 16)
  {
    assert s[10] == '>' && s[11] == ',' && s[12] == ' ' && s[13] == 'B' && s[14] == ' ' && s[15] == '<';
    NoAddressWithoutAt(s, 10, 16);
  }

  /** The same address named twice is returned once. */
  lemma {:induction false} CleanSampleHeader(s: string)
    requires IsSampleHeader(s)
    ensures CleanEmailAddresses(s) == ["a@x.com"]
  {
    SampleFirstMatch(s);
    SampleSecondMatch(s);
    var e := "a@x.com";
    assert [e, e][..1] == [e];
    assert Dedup([e]) == [e];
  }
}
