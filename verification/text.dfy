/** The few Python string operations the ingestion scripts rely on:
    `str.lower`, `str.endswith`, `in` on strings, `split('/')[-1]`,
    `os.path.splitext` and the decimal rendering of an `int` in an f-string. */
module Text {

  /** Python's `str.lower()` on one character, for the ASCII letters. */
  function LowerChar(c: char): char {
    if 'A' <= c <= 'Z' then (c as int + 32) as char else c
  }

  function ToLower(s: string): (r: string)
    ensures |r| == |s|
    ensures forall i :: 0 <= i < |s| ==> r[i] == LowerChar(s[i])
  {
    if s == [] then [] else [LowerChar(s[0])] + ToLower(s[1..])
  }

  /** Python's `s.endswith(suffix)`. */
  predicate EndsWith(s: string, suffix: string) {
    |suffix| <= |s| && s[|s| - |suffix|..] == suffix
  }

  /** Python's `s.startswith(prefix)`. */
  predicate StartsWith(s: string, prefix: string) {
    |prefix| <= |s| && s[..|prefix|] == prefix
  }

  /** Python's `sub in s`. */
  predicate Contains(s: string, sub: string)
    decreases |s|
  {
    StartsWith(s, sub) || (|s| > 0 && Contains(s[1..], sub))
  }

  /** `sub` occurs in `s` at position `i`. */
  predicate OccursAt(s: string, sub: string, i: nat) {
    i + |sub| <= |s| && s[i..i + |sub|] == sub
  }

  /** `sub in s` holds whenever `sub` occurs at some position of `s`. */
  lemma {:induction false} ContainsAt(s: string, sub: string, i: nat)
    requires OccursAt(s, sub, i)
    ensures Contains(s, sub)
    decreases i
  {
    if i == 0 {
      assert StartsWith(s, sub);
    } else {
      assert s[1..][i - 1..i - 1 + |sub|] == s[i..i + |sub|];
      ContainsAt(s[1..], sub, i - 1);
    }
  }

  /** The converse of `ContainsAt`: `sub in s` only when `sub` occurs at some
      position of `s`. */
  lemma {:induction false} ContainsOccurs(s: string, sub: string)
    requires Contains(s, sub)
    ensures exists i: nat :: OccursAt(s, sub, i)
    decreases |s|
  {
    if StartsWith(s, sub) {
      assert OccursAt(s, sub, 0);
    } else {
      var t := s[1..];
      ContainsOccurs(t, sub);
      var i: nat :| OccursAt(t, sub, i);
      assert s[i + 1..i + 1 + |sub|] == t[i..i + |sub|];
      assert OccursAt(s, sub, i + 1);
    }
  }

  /** `sub in s` exactly when `sub` occurs at some position of `s`. */
  lemma ContainsIff(s: string, sub: string)
    ensures Contains(s, sub) <==> exists i: nat :: OccursAt(s, sub, i)
  {
    if Contains(s, sub) {
      ContainsOccurs(s, sub);
    } else {
      forall i: nat | OccursAt(s, sub, i)
        ensures false
      {
        ContainsAt(s, sub, i);
      }
    }
  }

  /** The text after the last '/', which is Python's `s.split('/')[-1]`:
      the longest suffix of `s` without a '/'. */
  function LastSegment(s: string): (r: string)
    ensures EndsWith(s, r)
    ensures '/' !in r
    ensures |r| < |s| ==> s[|s| - |r| - 1] == '/'
  {
    if s == [] then []
    else if s[|s| - 1] == '/' then []
    else LastSegment(s[..|s| - 1]) + [s[|s| - 1]]
  }

  /** Python's `s.rfind(c)`: the last index holding `c`, or -1. */
  function RFind(s: string, c: char): (r: int)
    ensures -1 <= r < |s|
    ensures r >= 0 ==> s[r] == c
    ensures forall j :: r < j < |s| ==> s[j] != c
  {
    if s == [] then -1
    else if s[|s| - 1] == c then |s| - 1
    else RFind(s[..|s| - 1], c)
  }

  /** The extension half of POSIX `os.path.splitext(p)`: from the last '.' of the
      last path component, unless that component is only leading dots before it. */
  function SplitExt(p: string): (ext: string)
    ensures ext == [] || (ext[0] == '.' && EndsWith(p, ext) && '/' !in ext && '.' !in ext[1..])
  {
    var sep := RFind(p, '/');
    var dot := RFind(p, '.');
    if dot > sep && exists k :: sep < k < dot && p[k] != '.' then
      var ext := p[dot..];
      assert '/' !in ext by {
        forall j | 0 <= j < |ext| ensures ext[j] != '/' {
          assert ext[j] == p[dot + j];
        }
      }
      assert '.' !in ext[1..] by {
        forall j | 0 <= j < |ext| - 1 ensures ext[1..][j] != '.' {
          assert ext[1..][j] == p[dot + 1 + j];
        }
      }
      ext
    else []
  }

  /** A file name with a real stem and a dotted suffix has exactly that suffix as
      its extension (so "clip.mp4" gives ".mp4", whatever directories precede it). */
  lemma SplitExtOfName(stem: string, tail: string)
    requires |stem| > 0 && stem[|stem| - 1] != '.' && stem[|stem| - 1] != '/'
    requires '.' !in tail && '/' !in tail
    ensures SplitExt(stem + "." + tail) == "." + tail
  {
    var p := stem + "." + tail;
    var dot := RFind(p, '.');
    var sep := RFind(p, '/');
    assert p[|stem|] == '.';
    assert forall j :: |stem| < j < |p| ==> p[j] == tail[j - |stem| - 1];
    assert dot == |stem|;
    assert p[|stem| - 1] == stem[|stem| - 1];
    assert sep < |stem| - 1;
    assert p[dot..] == "." + tail;
  }

  /** The character of a decimal digit. */
  function DigitChar(d: nat): (c: char)
    requires d < 10
    ensures '0' <= c <= '9'
  {
    ('0' as int + d) as char
  }

  /** The decimal rendering of a natural number, as an f-string prints it. */
  function DecimalString(n: nat): (r: string)
    ensures 0 < |r|
    ensures forall i :: 0 <= i < |r| ==> '0' <= r[i] <= '9'
  {
    if n < 10 then [DigitChar(n)] else DecimalString(n / 10) + [DigitChar(n % 10)]
  }

  /** Distinct numbers render differently. */
  lemma {:induction false} DecimalStringInjective(a: nat, b: nat)
    requires DecimalString(a) == DecimalString(b)
    ensures a == b
    decreases a
  {
    var ra, rb := DecimalString(a), DecimalString(b);
    if a < 10 && b < 10 {
      assert DigitChar(a) == ra[0] == rb[0] == DigitChar(b);
    } else if a >= 10 && b >= 10 {
      assert ra[|ra| - 1] == DigitChar(a % 10);
      assert rb[|rb| - 1] == DigitChar(b % 10);
      assert a % 10 == b % 10;
      assert DecimalString(a / 10) == ra[..|ra| - 1] == rb[..|rb| - 1] == DecimalString(b / 10);
      DecimalStringInjective(a / 10, b / 10);
    }
  }
}
