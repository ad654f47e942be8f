/** Text handling of the controller: the trimming applied to the entry
    field (String.prototype.trim) and the live-region announcement. */
module Text {

  /** A code point that ECMAScript classes as WhiteSpace or LineTerminator:
      exactly the code points String.prototype.trim strips from both ends. */
  predicate IsTrimmable(c: char) {
    var n := c as int;
    n == 0x09 || n == 0x0A || n == 0x0B || n == 0x0C || n == 0x0D || n == 0x20
    || n == 0xA0 || n == 0x1680 || (0x2000 <= n <= 0x200A)
    || n == 0x2028 || n == 0x2029 || n == 0x202F || n == 0x205F
    || n == 0x3000 || n == 0xFEFF
  }

  predicate AllTrimmable(s: string) {
    forall i :: 0 <= i < |s| ==> IsTrimmable(s[i])
  }

  /** The index of the first non-whitespace code point at or after `from`,
      or |s| when there is none. */
  function SkipLeading(s: string, from: nat): (i: nat)
    requires from <= |s|
    ensures from <= i <= |s|
    ensures forall k :: from <= k < i ==> IsTrimmable(s[k])
    ensures i == |s| || !IsTrimmable(s[i])
    decreases |s| - from
  {
    if from == |s| || !IsTrimmable(s[from]) then from else SkipLeading(s, from + 1)
  }

  /** The index just past the last non-whitespace code point of s[lo..hi],
      or lo when there is none. */
  function SkipTrailing(s: string, lo: nat, hi: nat): (j: nat)
    requires lo <= hi <= |s|
    ensures lo <= j <= hi
    ensures forall k :: j <= k < hi ==> IsTrimmable(s[k])
    ensures j == lo || !IsTrimmable(s[j - 1])
    decreases hi
  {
    if hi == lo || !IsTrimmable(s[hi - 1]) then hi else SkipTrailing(s, lo, hi - 1)
  }

  /** String.prototype.trim: the middle of `s` that is left once the
      whitespace at both ends is removed. It is empty exactly when `s`
      holds nothing but whitespace. */
  function Trim(s: string): (r: string)
    ensures var i := SkipLeading(s, 0);
      i + |r| <= |s| && r == s[i..i + |r|]
      && (forall k :: 0 <= k < i ==> IsTrimmable(s[k]))
      && (forall k :: i + |r| <= k < |s| ==> IsTrimmable(s[k]))
    ensures r == [] || (!IsTrimmable(r[0]) && !IsTrimmable(r[|r| - 1]))
    ensures r == [] <==> AllTrimmable(s)
  {
    var i := SkipLeading(s, 0);
    var j := SkipTrailing(s, i, |s|);
    assert i < j ==> s[i..j][0] == s[i] && s[i..j][j - i - 1] == s[j - 1];
    s[i..j]
  }

  /** Trimming leaves a string that has no whitespace at either end as it is. */
  lemma TrimKeepsTrimmed(s: string)
    requires s == [] || (!IsTrimmable(s[0]) && !IsTrimmable(s[|s| - 1]))
    ensures Trim(s) == s
  {
  }

  /** Trimming twice is trimming once. */
  lemma TrimIdempotent(s: string)
    ensures Trim(Trim(s)) == Trim(s)
  {
  }

  /** The live-region text `${text} ${verb}.` announcing an action. */
  function ConfirmationMessage(text: string, verb: string): (m: string)
    ensures |m| == |text| + |verb| + 2
    ensures m[..|text|] == text && m[|text|] == ' '
    ensures m[|text| + 1..|m| - 1] == verb && m[|m| - 1] == '.'
  {
    text + " " + verb + "."
  }

  /** For a fixed verb the announcement determines the announced text. */
  lemma ConfirmationNamesText(t1: string, t2: string, verb: string)
    requires ConfirmationMessage(t1, verb) == ConfirmationMessage(t2, verb)
    ensures t1 == t2
  {
  }
}
