/**
 * The JavaScript string operations the core relies on: `indexOf` of a
 * character, `split` on a one-character separator, `join`, `includes`,
 * `replace` with a string pattern (first occurrence only), `toLowerCase`
 * on ASCII letters and `String(n)` for integers.
 */
module Text {
  import opened Wrappers

  /** Index of the first `c` in `s`, or `|s|` when there is none. */
  function IndexOf(s: string, c: char): (i: nat)
    ensures i <= |s|
    ensures i < |s| ==> s[i] == c
    ensures forall j :: 0 <= j < i ==> s[j] != c
  {
    if s == [] then 0
    else if s[0] == c then 0
    else 1 + IndexOf(s[1..], c)
  }

  /** `s.split(sep)` for a one-character separator. */
  function Split(s: string, sep: char): (parts: seq<string>)
    ensures |parts| >= 1
    ensures forall k :: 0 <= k < |parts| ==> sep !in parts[k]
    decreases |s|
  {
    var i := IndexOf(s, sep);
    if i == |s| then [s] else [s[..i]] + Split(s[i + 1..], sep)
  }

  /** `parts.join(sep)`. */
  function Join(parts: seq<string>, sep: string): string
  {
    if parts == [] then ""
    else if |parts| == 1 then parts[0]
    else parts[0] + sep + Join(parts[1..], sep)
  }

  /** Joining what `split` produced gives back the original string. */
  lemma {:induction false} JoinSplit(s: string, sep: char)
    ensures Join(Split(s, sep), [sep]) == s
    decreases |s|
  {
    var i := IndexOf(s, sep);
    if i < |s| {
      var rest := Split(s[i + 1..], sep);
      var parts := [s[..i]] + rest;
      assert Split(s, sep) == parts;
      assert parts[0] == s[..i] && parts[1..] == rest;
      JoinSplit(s[i + 1..], sep);
      assert Join(parts, [sep]) == s[..i] + [sep] + s[i + 1..];
      assert s == s[..i] + [sep] + s[i + 1..];
    }
  }

  /** Splitting a string that holds the separator: the text before its first separator, then the parts of the rest. */
  lemma SplitUnfold(s: string, sep: char)
    requires IndexOf(s, sep) < |s|
    ensures var i := IndexOf(s, sep);
      Split(s, sep) == [s[..i]] + Split(s[i + 1..], sep)
  {
  }

  /** Splitting a string that does not hold the separator gives the string alone. */
  lemma SplitWithoutSeparator(s: string, sep: char)
    requires sep !in s
    ensures Split(s, sep) == [s]
  {
    assert IndexOf(s, sep) == |s|;
  }

  /** Splitting at the first separator: the text before it, then the parts of the rest. */
  lemma SplitAtFirst(a: string, b: string, sep: char)
    requires sep !in a
    ensures Split(a + [sep] + b, sep) == [a] + Split(b, sep)
  {
    var s := a + [sep] + b;
    assert IndexOf(s, sep) == |a| by {
      assert s[|a|] == sep;
      forall j | 0 <= j < |a| ensures s[j] != sep {
        assert s[j] == a[j];
      }
    }
    assert s[..|a|] == a;
    assert s[|a| + 1..] == b;
  }

  /** Cutting a string holding the separator at its first separator. */
  lemma CutAtFirst(a: string, sep: char)
    requires sep in a
    ensures var i := IndexOf(a, sep);
      && i < |a|
      && sep !in a[..i]
      && a == a[..i] + [sep] + a[i + 1..]
  {
  }

  /** Splitting `a`, and `a` followed by more text, at the first separator of `a`. */
  lemma SplitPastFirst(a: string, head: string, tail: string, b: string, sep: char)
    requires sep !in head && a == head + [sep] + tail
    ensures Split(a, sep) == [head] + Split(tail, sep)
    ensures Split(a + [sep] + b, sep) == [head] + Split(tail + [sep] + b, sep)
  {
    SplitAtFirst(head, tail, sep);
    assert a + [sep] + b == head + [sep] + (tail + [sep] + b);
    SplitAtFirst(head, tail + [sep] + b, sep);
  }

  /** Concatenation is associative; stated once so that proofs need not rediscover it element by element. */
  lemma AppendAssociates<T>(x: seq<T>, y: seq<T>, z: seq<T>)
    ensures x + (y + z) == (x + y) + z
  {
  }

  /** Splitting around one separator splits each side on its own. */
  lemma {:induction false} SplitConcat(a: string, b: string, sep: char)
    ensures Split(a + [sep] + b, sep) == Split(a, sep) + Split(b, sep)
    decreases |a|
  {
    if sep !in a {
      SplitAtFirst(a, b, sep);
      SplitWithoutSeparator(a, sep);
    } else {
      CutAtFirst(a, sep);
      var i := IndexOf(a, sep);
      var head := a[..i];
      var tail := a[i + 1..];
      SplitPastFirst(a, head, tail, b, sep);
      SplitConcat(tail, b, sep);
      AppendAssociates([head], Split(tail, sep), Split(b, sep));
    }
  }

  /** Splitting what `join` produced from parts free of the separator gives back the parts. */
  lemma {:induction false} SplitJoin(parts: seq<string>, sep: char)
    requires |parts| >= 1
    requires forall k :: 0 <= k < |parts| ==> sep !in parts[k]
    ensures Split(Join(parts, [sep]), sep) == parts
    decreases |parts|
  {
    if |parts| == 1 {
      SplitWithoutSeparator(parts[0], sep);
    } else {
      SplitJoin(parts[1..], sep);
      SplitAtFirst(parts[0], Join(parts[1..], [sep]), sep);
      assert [parts[0]] + parts[1..] == parts;
    }
  }

  predicate OccursAt(s: string, pat: string, i: nat)
  {
    i + |pat| <= |s| && s[i..i + |pat|] == pat
  }

  /** Index of the first occurrence of `pat` in `s` at or after `from`. */
  function FindFrom(s: string, pat: string, from: nat): (r: Option<nat>)
    requires from <= |s| + 1
    ensures r.Some? ==> from <= r.value && OccursAt(s, pat, r.value)
    ensures r.Some? ==> forall j :: from <= j < r.value ==> !OccursAt(s, pat, j)
    ensures r.None? ==> forall j :: from <= j ==> !OccursAt(s, pat, j)
    decreases |s| + 1 - from
  {
    if from + |pat| > |s| then None
    else if s[from..from + |pat|] == pat then Some(from)
    else FindFrom(s, pat, from + 1)
  }

  /** Index of the first occurrence of `pat` in `s` (`indexOf` on strings). */
  function Find(s: string, pat: string): (r: Option<nat>)
    ensures r.Some? ==> OccursAt(s, pat, r.value)
    ensures r.Some? ==> forall j :: 0 <= j < r.value ==> !OccursAt(s, pat, j)
    ensures r.None? ==> forall j :: 0 <= j ==> !OccursAt(s, pat, j)
  {
    FindFrom(s, pat, 0)
  }

  /** An occurrence with none before it is the one `indexOf` finds. */
  lemma FindFirstAt(s: string, pat: string, i: nat)
    requires OccursAt(s, pat, i)
    requires forall j :: 0 <= j < i ==> !OccursAt(s, pat, j)
    ensures Find(s, pat) == Some(i)
  {
  }

  /** `s.includes(pat)`. */
  predicate Includes(s: string, pat: string)
  {
    Find(s, pat).Some?
  }

  /** `s.replace(pat, rep)` with a string pattern: only the first occurrence is replaced. */
  function ReplaceFirst(s: string, pat: string, rep: string): (r: string)
    ensures Find(s, pat).None? ==> r == s
    ensures Find(s, pat).Some? ==>
      var i := Find(s, pat).value;
      r == s[..i] + rep + s[i + |pat|..]
  {
    match Find(s, pat)
    case None => s
    case Some(i) => s[..i] + rep + s[i + |pat|..]
  }

  /** The empty pattern occurs at the very start, so replacing it with "" changes nothing. */
  lemma ReplaceEmptyByEmpty(s: string)
    ensures ReplaceFirst(s, "", "") == s
  {
    assert OccursAt(s, "", 0);
  }

  function ToLowerChar(c: char): (d: char)
    ensures 'A' <= c <= 'Z' ==> 'a' <= d <= 'z'
  {
    if 'A' <= c <= 'Z' then (c as int - 'A' as int + 'a' as int) as char else c
  }

  /** `s.toLowerCase()`, on ASCII letters. */
  function ToLower(s: string): (r: string)
    ensures |r| == |s|
    ensures forall i :: 0 <= i < |s| ==> r[i] == ToLowerChar(s[i])
  {
    seq(|s|, i requires 0 <= i < |s| => ToLowerChar(s[i]))
  }

  function DigitChar(d: nat): char
    requires d < 10
  {
    ('0' as int + d) as char
  }

  function NatToString(n: nat): (r: string)
    ensures |r| >= 1
    ensures forall i :: 0 <= i < |r| ==> '0' <= r[i] <= '9'
  {
    if n < 10 then [DigitChar(n)] else NatToString(n / 10) + [DigitChar(n % 10)]
  }

  /** `String(n)` for an integer. */
  function IntToString(n: int): (r: string)
    ensures |r| >= 1
    ensures r[0] == '-' <==> n < 0
  {
    if n < 0 then "-" + NatToString(-n) else NatToString(n)
  }
}
