/** The few string operations the modules share. */
module Text {

  datatype Option<+T> = None | Some(value: T)

  /** What Python's `str.strip()` removes. */
  predicate IsSpace(c: char) {
    var n := c as int;
    || 9 <= n <= 13 || 28 <= n <= 32 || n in {0x85, 0xa0, 0x1680, 0x2028, 0x2029, 0x202f, 0x205f, 0x3000}
    || 0x2000 <= n <= 0x200a
  }

  /** The first index from `i` on that is not whitespace. */
  function SkipLeft(s: string, i: nat): (lo: nat)
    requires i <= |s|
    ensures i <= lo <= |s| && (lo < |s| ==> !IsSpace(s[lo]))
    ensures forall k :: i <= k < lo ==> IsSpace(s[k])
    decreases |s| - i
  {
    if i < |s| && IsSpace(s[i]) then SkipLeft(s, i + 1) else i
  }

  /** The end of `s[lo..hi]` without its trailing whitespace. */
  function SkipRight(s: string, lo: nat, hi: nat): (end: nat)
    requires lo <= hi <= |s|
    ensures lo <= end <= hi && (lo < end ==> !IsSpace(s[end - 1]))
    ensures forall k :: end <= k < hi ==> IsSpace(s[k])
    decreases hi
  {
    if lo < hi && IsSpace(s[hi - 1]) then SkipRight(s, lo, hi - 1) else hi
  }

  function Strip(s: string): string {
    var lo := SkipLeft(s, 0);
    s[lo..SkipRight(s, lo, |s|)]
  }

  /** What has no whitespace at either end stays as it is. */
  lemma StripOfWord(word: string)
    requires word == "" || (!IsSpace(word[0]) && !IsSpace(word[|word| - 1]))
    ensures Strip(word) == word
  {
    if word != "" {
      assert SkipLeft(word, 0) == 0 && SkipRight(word, 0, |word|) == |word|;
    }
  }

  lemma StripTwice(s: string)
    ensures Strip(Strip(s)) == Strip(s)
  {
    var lo := SkipLeft(s, 0);
    var hi := SkipRight(s, lo, |s|);
    assert lo < hi ==> Strip(s)[0] == s[lo] && Strip(s)[hi - lo - 1] == s[hi - 1];
    StripOfWord(Strip(s));
  }

  function Concat(parts: seq<string>): string {
    if parts == [] then "" else parts[0] + Concat(parts[1..])
  }

  function Flatten<T>(groups: seq<seq<T>>): seq<T> {
    if groups == [] then [] else groups[0] + Flatten(groups[1..])
  }

  lemma {:induction false} FlattenSnoc<T>(groups: seq<seq<T>>, last: seq<T>)
    ensures Flatten(groups + [last]) == Flatten(groups) + last
  {
    if groups == [] {
      assert Flatten([last]) == last + Flatten([]);
    } else {
      assert (groups + [last])[1..] == groups[1..] + [last];
      FlattenSnoc(groups[1..], last);
    }
  }
}
