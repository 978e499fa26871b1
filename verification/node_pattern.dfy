/**
 * The module-path pattern `(?:loRaNodes|node)\[(\d+)\]` that every reducer
 * uses to find the node index inside an OMNeT++ module path such as
 * `LoRaNetwork.loRaNodes[12].app[0]`.  `re.search` returns the leftmost
 * match; group 1 is the run of digits between the brackets.  Two of the
 * reducers compile the pattern with `re.IGNORECASE`, one without.
 */
module NodePattern {
  import opened Wrappers
  import opened Text

  /** ASCII lower-casing, the folding `re.IGNORECASE` applies to these letters. */
  function Lower(c: char): char {
    if 'A' <= c <= 'Z' then (c as int + 32) as char else c
  }

  predicate CharMatch(a: char, p: char, ignoreCase: bool) {
    if ignoreCase then Lower(a) == Lower(p) else a == p
  }

  /** The literal `lit` occurs at offset `i` of `s`, up to case when `ignoreCase`. */
  predicate LiteralAt(s: string, i: nat, lit: string, ignoreCase: bool) {
    i + |lit| <= |s| && forall k :: 0 <= k < |lit| ==> CharMatch(s[i + k], lit[k], ignoreCase)
  }

  /** `\[(\d+)\]` at offset `i`: the digits of group 1 when it matches there. */
  function BracketedDigitsAt(s: string, i: nat): (r: Option<string>)
    ensures r.Some? ==> IsDigits(r.value)
  {
    if i < |s| && s[i] == '[' then
      var d := Digits(s[i + 1..]);
      if d != [] && i + 1 + |d| < |s| && s[i + 1 + |d|] == ']' then Some(d) else None
    else None
  }

  /**
   * The whole pattern anchored at offset `i`.  The alternation tries
   * `loRaNodes` before `node`; since the two alternatives begin with
   * different letters, at most one of them can match at a given offset.
   */
  function MatchAt(s: string, i: nat, ignoreCase: bool): (r: Option<string>)
    ensures r.Some? ==> IsDigits(r.value)
  {
    if LiteralAt(s, i, "loRaNodes", ignoreCase) then BracketedDigitsAt(s, i + 9)
    else if LiteralAt(s, i, "node", ignoreCase) then BracketedDigitsAt(s, i + 4)
    else None
  }

  /** The offset of the leftmost match at or after `from`, as `re.search` scans for it. */
  function FindMatch(s: string, from: nat, ignoreCase: bool): (r: Option<nat>)
    requires from <= |s|
    ensures r.Some? ==> from <= r.value <= |s| && MatchAt(s, r.value, ignoreCase).Some?
    ensures r.Some? ==> forall j :: from <= j < r.value ==> MatchAt(s, j, ignoreCase).None?
    ensures r.None? ==> forall j :: from <= j <= |s| ==> MatchAt(s, j, ignoreCase).None?
    decreases |s| - from
  {
    var here := MatchAt(s, from, ignoreCase);
    if here.Some? then Some(from)
    else if from == |s| then None
    else
      var r := FindMatch(s, from + 1, ignoreCase);
      assert forall j :: from <= j < from + 1 ==> MatchAt(s, j, ignoreCase).None?;
      r
  }

  /** `node_pattern.search(module)`, giving the digits of group 1 when the path matches. */
  function Search(s: string, ignoreCase: bool): (r: Option<string>)
    ensures r.Some? ==> IsDigits(r.value)
    ensures r.None? <==> forall i :: 0 <= i <= |s| ==> MatchAt(s, i, ignoreCase).None?
  {
    match FindMatch(s, 0, ignoreCase)
    case None => None
    case Some(i) => MatchAt(s, i, ignoreCase)
  }

  lemma LiteralAtIgnoringCase(s: string, i: nat, lit: string)
    requires LiteralAt(s, i, lit, false)
    ensures LiteralAt(s, i, lit, true)
  {
  }

  /** Every path the case-sensitive pattern matches is matched by the case-insensitive one. */
  lemma CaseInsensitiveMatchesMore(s: string)
    requires Search(s, false).Some?
    ensures Search(s, true).Some?
  {
    var i := FindMatch(s, 0, false).value;
    if LiteralAt(s, i, "loRaNodes", false) {
      LiteralAtIgnoringCase(s, i, "loRaNodes");
      assert MatchAt(s, i, true).Some?;
    } else {
      assert LiteralAt(s, i, "node", false);
      LiteralAtIgnoringCase(s, i, "node");
      assert !LiteralAt(s, i, "loRaNodes", true) by {
        assert s[i] == "node"[0] == 'n';
        assert Lower(s[i]) == 'n';
        assert Lower("loRaNodes"[0]) == 'l';
        assert !CharMatch(s[i + 0], "loRaNodes"[0], true);
      }
      assert MatchAt(s, i, true).Some?;
    }
  }
}
