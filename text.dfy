/** String helpers the importer relies on: the prefix and suffix tests, the
    colon split of a tag key, and the unsigned decimal parse behind
    `toULongLong`. */
module Text {

  datatype Option<+T> = None | Some(value: T)

  /** `s.startsWith(prefix)` */
  predicate StartsWith(s: string, prefix: string) {
    |prefix| <= |s| && s[..|prefix|] == prefix
  }

  /** `s.endsWith(suffix)` */
  predicate EndsWith(s: string, suffix: string) {
    |suffix| <= |s| && s[|s| - |suffix|..] == suffix
  }

  /** `s.split(sep)`: empty parts are kept, so the result is never empty and
      has one more part than `s` has separators. */
  function Split(s: string, sep: char): (parts: seq<string>)
    ensures |parts| >= 1
    ensures forall i :: 0 <= i < |parts| ==> sep !in parts[i]
  {
    if |s| == 0 then [""]
    else
      var rest := Split(s[1..], sep);
      if s[0] == sep then [""] + rest
      else [[s[0]] + rest[0]] + rest[1..]
  }

  /** The inverse of `Split`: the parts joined with the separator. */
  function Join(parts: seq<string>, sep: char): string
    requires |parts| >= 1
  {
    if |parts| == 1 then parts[0] else parts[0] + [sep] + Join(parts[1..], sep)
  }

  lemma {:induction false} JoinSplit(s: string, sep: char)
    ensures Join(Split(s, sep), sep) == s
  {
    if |s| > 0 {
      var rest := Split(s[1..], sep);
      JoinSplit(s[1..], sep);
      if s[0] == sep {
        assert Split(s, sep) == [""] + rest;
        assert ([""] + rest)[1..] == rest;
      } else {
        var parts := [[s[0]] + rest[0]] + rest[1..];
        assert Split(s, sep) == parts;
        if |rest| == 1 {
          assert Join(parts, sep) == [s[0]] + rest[0];
        } else {
          assert parts[1..] == rest[1..];
          calc {
            Join(parts, sep);
            ([s[0]] + rest[0]) + [sep] + Join(rest[1..], sep);
            [s[0]] + (rest[0] + [sep] + Join(rest[1..], sep));
            [s[0]] + Join(rest, sep);
          }
        }
        assert [s[0]] + s[1..] == s;
      }
    }
  }

  /** A part that holds no separator splits into itself. */
  lemma {:induction false} SplitPlain(p: string, sep: char)
    requires sep !in p
    ensures Split(p, sep) == [p]
  {
    if |p| > 0 {
      SplitPlain(p[1..], sep);
      assert [p[0]] + p[1..] == p;
    }
  }

  /** Splitting at the first separator peels off the part before it. */
  lemma {:induction false} SplitFirst(p: string, sep: char, t: string)
    requires sep !in p
    ensures Split(p + [sep] + t, sep) == [p] + Split(t, sep)
  {
    var s := p + [sep] + t;
    if |p| == 0 {
      assert s[0] == sep && s[1..] == t;
    } else {
      assert s[0] == p[0];
      assert s[1..] == p[1..] + [sep] + t;
      SplitFirst(p[1..], sep, t);
      assert [p[0]] + p[1..] == p;
    }
  }

  lemma {:induction false} SplitJoin(parts: seq<string>, sep: char)
    requires |parts| >= 1
    requires forall i :: 0 <= i < |parts| ==> sep !in parts[i]
    ensures Split(Join(parts, sep), sep) == parts
  {
    if |parts| == 1 {
      SplitPlain(parts[0], sep);
    } else {
      SplitJoin(parts[1..], sep);
      SplitFirst(parts[0], sep, Join(parts[1..], sep));
      assert [parts[0]] + parts[1..] == parts;
    }
  }

  /** A prefix without separators survives in the first part. */
  lemma {:induction false} SplitKeepsPrefix(s: string, prefix: string, sep: char)
    requires StartsWith(s, prefix) && sep !in prefix
    ensures StartsWith(Split(s, sep)[0], prefix)
  {
    if |prefix| > 0 {
      assert s[0] == prefix[0];
      assert StartsWith(s[1..], prefix[1..]) by {
        assert s[1..][..|prefix| - 1] == s[..|prefix|][1..];
      }
      SplitKeepsPrefix(s[1..], prefix[1..], sep);
      var rest := Split(s[1..], sep);
      assert Split(s, sep)[0] == [s[0]] + rest[0];
      assert ([s[0]] + rest[0])[..|prefix|] == [s[0]] + rest[0][..|prefix| - 1];
      assert [prefix[0]] + prefix[1..] == prefix;
    }
  }

  // ---------------------------------------------------------------------
  // Unsigned decimal numbers

  /** One more than the largest value a `uint64_t` holds. */
  const U64_LIMIT: nat := 0x1_0000_0000_0000_0000

  predicate IsDigit(c: char) { '0' <= c <= '9' }

  predicate AllDigits(s: string) { forall i :: 0 <= i < |s| ==> IsDigit(s[i]) }

  /** The value of a string of decimal digits, most significant first. */
  function DecimalValue(s: string): nat
    requires AllDigits(s)
  {
    if |s| == 0 then 0
    else DecimalValue(s[..|s| - 1]) * 10 + ((s[|s| - 1] as int) - ('0' as int))
  }

  /** A white-space character in the ASCII range: space, tab, line feed,
      vertical tab, form feed and carriage return. */
  predicate IsSpace(c: char) { c == ' ' || '\t' <= c <= '\r' }

  predicate AllSpaces(s: string) { forall i :: 0 <= i < |s| ==> IsSpace(s[i]) }

  /** The first index at or after `i` that does not hold a space. */
  function LeadEnd(s: string, i: nat): (k: nat)
    requires i <= |s|
    ensures i <= k <= |s|
    decreases |s| - i
  {
    if i < |s| && IsSpace(s[i]) then LeadEnd(s, i + 1) else i
  }

  lemma {:induction false} LeadEndSpaces(s: string, i: nat)
    requires i <= |s|
    ensures forall j :: i <= j < LeadEnd(s, i) ==> IsSpace(s[j])
    ensures LeadEnd(s, i) < |s| ==> !IsSpace(s[LeadEnd(s, i)])
    decreases |s| - i
  {
    if i < |s| && IsSpace(s[i]) {
      LeadEndSpaces(s, i + 1);
    }
  }

  /** The end of `s[k..j]` once its trailing spaces are cut off. */
  function TrailStart(s: string, k: nat, j: nat): (e: nat)
    requires k <= j <= |s|
    ensures k <= e <= j
    decreases j
  {
    if j > k && IsSpace(s[j - 1]) then TrailStart(s, k, j - 1) else j
  }

  lemma {:induction false} TrailStartSpaces(s: string, k: nat, j: nat)
    requires k <= j <= |s|
    ensures forall m :: TrailStart(s, k, j) <= m < j ==> IsSpace(s[m])
    ensures TrailStart(s, k, j) > k ==> !IsSpace(s[TrailStart(s, k, j) - 1])
    decreases j
  {
    if j > k && IsSpace(s[j - 1]) {
      TrailStartSpaces(s, k, j - 1);
    }
  }

  /** The bounds of `s` without its leading and trailing white space. */
  function TrimBounds(s: string): (r: (nat, nat))
    ensures r.0 <= r.1 <= |s|
  {
    var b := LeadEnd(s, 0);
    (b, TrailStart(s, b, |s|))
  }

  /** Everything outside the bounds is white space, and the text inside
      starts and ends with something else. */
  lemma TrimBoundsSpaces(s: string)
    ensures forall j :: 0 <= j < |s| && !(TrimBounds(s).0 <= j < TrimBounds(s).1) ==> IsSpace(s[j])
    ensures TrimBounds(s).0 < TrimBounds(s).1 ==> !IsSpace(s[TrimBounds(s).0]) && !IsSpace(s[TrimBounds(s).1 - 1])
  {
    LeadEndSpaces(s, 0);
    TrailStartSpaces(s, LeadEnd(s, 0), |s|);
  }

  /** The text a number is read from: `s` without its leading and trailing
      white space, and without one leading `+`. */
  function Unsigned(s: string): string {
    var t := s[TrimBounds(s).0..TrimBounds(s).1];
    if |t| > 0 && t[0] == '+' then t[1..] else t
  }

  /** `toULongLong(&ok)` in base 10: `Some` exactly when `ok` would be set.
      White space around the number and a leading `+` are allowed; a sign
      of `-`, any other character, a value that does not fit in 64 bits,
      and a string with no digits (such as the empty value of a missing
      attribute) fail. */
  function ParseULong(s: string): (r: Option<nat>)
    ensures r.Some? ==> r.value < U64_LIMIT && |s| > 0
  {
    var d := Unsigned(s);
    if |d| > 0 && AllDigits(d) && DecimalValue(d) < U64_LIMIT then Some(DecimalValue(d)) else None
  }

  /** Any character that is neither a digit, nor white space, nor a `+`
      (a `-` sign, say) makes the conversion fail. */
  lemma ParseRejects(s: string, i: nat)
    requires i < |s| && !IsDigit(s[i]) && !IsSpace(s[i]) && s[i] != '+'
    ensures ParseULong(s).None?
  {
    var (b, e) := TrimBounds(s);
    TrimBoundsSpaces(s);
    assert b <= i < e;
    var t := s[b..e];
    assert t[i - b] == s[i];
    if |t| > 0 && t[0] == '+' {
      assert t[1..][i - b - 1] == s[i];
    }
  }

  /** `toULongLong` without looking at `ok`: a failed parse yields 0. */
  function ParseULongOrZero(s: string): (n: nat)
    ensures n < U64_LIMIT
    ensures ParseULong(s).None? ==> n == 0
  {
    match ParseULong(s)
    case Some(v) => v
    case None => 0
  }

  /** The shortest decimal spelling of `n`, used to state the round trip. */
  function Decimal(n: nat): (s: string)
    ensures |s| > 0 && AllDigits(s)
    decreases n
  {
    var d := [(('0' as int) + n % 10) as char];
    if n < 10 then d else Decimal(n / 10) + d
  }

  lemma {:induction false} DecimalValueOfDecimal(n: nat)
    ensures DecimalValue(Decimal(n)) == n
    decreases n
  {
    var s := Decimal(n);
    if n >= 10 {
      DecimalValueOfDecimal(n / 10);
      assert s[..|s| - 1] == Decimal(n / 10);
    }
  }

  /** Trimming cuts exactly the white space around a text that starts and
      ends with other characters. */
  lemma TrimPadded(pre: string, t: string, post: string)
    requires AllSpaces(pre) && AllSpaces(post)
    requires |t| > 0 && !IsSpace(t[0]) && !IsSpace(t[|t| - 1])
    ensures var s := pre + t + post; s[TrimBounds(s).0..TrimBounds(s).1] == t
  {
    var s := pre + t + post;
    var (b, e) := TrimBounds(s);
    TrimBoundsSpaces(s);
    assert s[|pre|] == t[0];
    assert s[|pre| + |t| - 1] == t[|t| - 1];
    assert forall j :: 0 <= j < |pre| ==> s[j] == pre[j];
    assert forall j :: |pre| + |t| <= j < |s| ==> s[j] == post[j - |pre| - |t|];
    assert b == |pre| && e == |pre| + |t|;
    assert s[b..e] == t;
  }

  /** The decimal spelling of any 64-bit value reads back as that value,
      with or without a `+` and with any white space around it. */
  lemma ParseDecimal(n: nat, pre: string, plus: bool, post: string)
    requires n < U64_LIMIT && AllSpaces(pre) && AllSpaces(post)
    ensures ParseULong(pre + (if plus then "+" else "") + Decimal(n) + post) == Some(n)
  {
    var d := Decimal(n);
    var t := (if plus then "+" else "") + d;
    var s := pre + t + post;
    assert s == pre + (if plus then "+" else "") + d + post;
    TrimPadded(pre, t, post);
    assert Unsigned(s) == d by {
      if plus {
        assert t[1..] == d;
      }
    }
    DecimalValueOfDecimal(n);
  }
}
