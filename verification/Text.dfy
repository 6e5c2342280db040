/** The string operations that several components share. */
module Text {
  function Split(s: string, sep: char): (parts: seq<string>)
    ensures parts != []
  {
    if s == [] then [""]
    else
      var rest := Split(s[1..], sep);
      if s[0] == sep then [""] + rest else [[s[0]] + rest[0]] + rest[1..]
  }

  predicate EndsWith(s: string, suffix: string) {
    |suffix| <= |s| && s[|s| - |suffix|..] == suffix
  }

  function LowerChar(c: char): char {
    if 'A' <= c <= 'Z' then ((c as int) - ('A' as int) + ('a' as int)) as char else c
  }

  function Lower(s: string): (r: string)
    ensures |r| == |s| && forall i :: 0 <= i < |s| ==> r[i] == LowerChar(s[i])
  {
    seq(|s|, i requires 0 <= i < |s| => LowerChar(s[i]))
  }

  /** The two characters are one letter, upper or lower case, or equal. */
  predicate SameLetter(c: char, d: char) {
    c == d || ('A' <= c <= 'Z' && d as int == c as int + 32) || ('A' <= d <= 'Z' && c as int == d as int + 32)
  }

  predicate SameLetters(s: string, t: string) {
    |s| == |t| && forall i :: 0 <= i < |s| ==> SameLetter(s[i], t[i])
  }

  /** Lowering forgets the case of letters and nothing else. */
  lemma LowerForgetsCase(s: string, t: string)
    ensures Lower(s) == Lower(t) <==> SameLetters(s, t)
  {
    if Lower(s) == Lower(t) {
      forall i | 0 <= i < |s|
        ensures SameLetter(s[i], t[i])
      {
        assert Lower(s)[i] == Lower(t)[i];
      }
    }
  }

  function Slashed(path: string): (r: string)
    ensures |r| == |path| && forall i :: 0 <= i < |r| ==> r[i] == if path[i] == '\\' then '/' else path[i]
  {
    if path == [] then [] else [if path[0] == '\\' then '/' else path[0]] + Slashed(path[1..])
  }

  lemma SlashedConcat(a: string, b: string)
    ensures Slashed(a + b) == Slashed(a) + Slashed(b)
  {
  }

  /** The first part ends at the first separator. */
  lemma {:induction false} SplitHead(head: string, rest: string, sep: char)
    requires sep !in head
    ensures Split(head, sep) == [head]
    ensures Split(head + [sep] + rest, sep) == [head] + Split(rest, sep)
  {
    if head == [] {
      assert head + [sep] + rest == [sep] + rest && ([sep] + rest)[1..] == rest;
    } else {
      SplitHead(head[1..], rest, sep);
      assert (head + [sep] + rest)[1..] == head[1..] + [sep] + rest;
      assert [head[0]] + head[1..] == head;
    }
  }

  /** `parts` with `c` put behind them: a new part, or one character more in the last. */
  function Extended(parts: seq<string>, c: char, sep: char): seq<string>
    requires parts != []
  {
    var n := |parts| - 1;
    if c == sep then parts + [""] else parts[..n] + [parts[n] + [c]]
  }

  /** `parts` with `c` put before them. */
  function Preceded(c: char, parts: seq<string>, sep: char): seq<string>
    requires parts != []
  {
    if c == sep then [""] + parts else [[c] + parts[0]] + parts[1..]
  }

  lemma BothEnds(first: char, parts: seq<string>, last: char, sep: char)
    requires parts != []
    ensures Extended(Preceded(first, parts, sep), last, sep) == Preceded(first, Extended(parts, last, sep), sep)
  {
    if |parts| == 1 && first != sep && last != sep {
      assert ([first] + parts[0]) + [last] == [first] + (parts[0] + [last]);
    }
  }

  lemma {:induction false} SplitSnoc(s: string, c: char, sep: char)
    ensures Split(s + [c], sep) == Extended(Split(s, sep), c, sep)
  {
    if s == [] {
      assert [c][1..] == [] && s + [c] == [c] && [c] + "" == [c] == "" + [c];
      var one: seq<string> := [""];
      assert one[..0] + [one[0] + [c]] == [[c]] && [[c] + one[0]] + one[1..] == [[c]];
    } else {
      SplitSnoc(s[1..], c, sep);
      BothEnds(s[0], Split(s[1..], sep), c, sep);
      assert (s + [c])[1..] == s[1..] + [c];
      assert Split(s, sep) == Preceded(s[0], Split(s[1..], sep), sep);
      assert Split(s + [c], sep) == Preceded(s[0], Split(s[1..] + [c], sep), sep);
    }
  }

  /** The number a string of digits spells. */
  function DigitsValue(s: string): int {
    if s == [] then 0 else 10 * DigitsValue(s[..|s| - 1]) + (s[|s| - 1] as int - '0' as int)
  }

  lemma {:induction false} DigitsNatural(s: string)
    requires forall i :: 0 <= i < |s| ==> '0' <= s[i] <= '9'
    ensures DigitsValue(s) >= 0
  {
    if s != [] {
      DigitsNatural(s[..|s| - 1]);
    }
  }

  // ---- the order of texts ------------------------------------------------------

  /** `s` comes before `t`: it is a proper prefix, or the lower character comes first. */
  predicate TextBeforeAt(s: string, t: string, k: nat) {
    k <= |s| && k < |t| && (forall j :: 0 <= j < k ==> s[j] == t[j]) && (k < |s| ==> s[k] < t[k])
  }

  ghost predicate TextBefore(s: string, t: string) {
    exists k: nat :: TextBeforeAt(s, t, k)
  }

  /** The same for lists of texts. */
  ghost predicate PathBeforeAt(p: seq<string>, q: seq<string>, k: nat) {
    k <= |p| && k < |q| && (forall j :: 0 <= j < k ==> p[j] == q[j]) && (k < |p| ==> TextBefore(p[k], q[k]))
  }

  ghost predicate PathBefore(p: seq<string>, q: seq<string>) {
    exists k: nat :: PathBeforeAt(p, q, k)
  }

  /** And for lists of numbers. */
  predicate NumbersBeforeAt(a: seq<nat>, b: seq<nat>, k: nat) {
    k <= |a| && k < |b| && (forall j :: 0 <= j < k ==> a[j] == b[j]) && (k < |a| ==> a[k] < b[k])
  }

  ghost predicate NumbersBefore(a: seq<nat>, b: seq<nat>) {
    exists k: nat :: NumbersBeforeAt(a, b, k)
  }
}
