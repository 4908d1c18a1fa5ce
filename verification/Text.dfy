/** The string machinery that every durable key in Pulse Agent rests on: bounded
    tokens, NUL-joined identities, decimal numerals and byte order.

    A Go string is modelled as a `string`; length limits count characters. */
module Text {

  /* ---- Results and options ---- */

  datatype Option<+T> = None | Some(value: T)

  datatype Result<+T, +E> = Ok(value: T) | Err(error: E)

  /* ---- Tokens ---- */

  /** The characters that `strings.TrimSpace` removes. */
  predicate IsSpace(c: char) {
    c in {'\t', '\n', '\U{0B}', '\U{0C}', '\r', ' ', '\U{85}', '\U{A0}', '\U{1680}',
          '\U{2028}', '\U{2029}', '\U{202F}', '\U{205F}', '\U{3000}'}
    || '\U{2000}' <= c <= '\U{200A}'
  }

  predicate NulFree(s: string) {
    '\0' !in s
  }

  /** A bounded identifier: non-empty, no surrounding space, no NUL. */
  predicate ValidToken(value: string, limit: nat) {
    && 0 < |value| <= limit
    && !IsSpace(value[0])
    && !IsSpace(value[|value| - 1])
    && NulFree(value)
  }

  predicate Distinct<T(==)>(values: seq<T>) {
    forall i, k :: 0 <= i < k < |values| ==> values[i] != values[k]
  }

  lemma FirstNul(a: string, x: string, b: string, y: string)
    requires NulFree(a) && NulFree(b) && a + "\0" + x == b + "\0" + y
    ensures a == b && x == y
  {
    var s := a + "\0" + x;
    assert s[|a|] == '\0' && s[|b|] == '\0';
    assert forall i :: 0 <= i < |a| ==> s[i] == a[i] && s[i] != '\0';
    assert forall i :: 0 <= i < |b| ==> s[i] == b[i] && s[i] != '\0';
    assert |a| == |b|;
    assert a == s[..|a|] && b == s[..|b|];
    assert x == s[|a| + 1..] && y == s[|b| + 1..];
  }

  /* ---- Slash-joined names ---- */

  predicate SlashFree(s: string) {
    '/' !in s
  }

  lemma FirstSlash(a: string, x: string, b: string, y: string)
    requires SlashFree(a) && SlashFree(b) && a + "/" + x == b + "/" + y
    ensures a == b && x == y
  {
    var s := a + "/" + x;
    assert s[|a|] == '/' && s[|b|] == '/';
    assert forall i :: 0 <= i < |a| ==> s[i] == a[i] && s[i] != '/';
    assert forall i :: 0 <= i < |b| ==> s[i] == b[i] && s[i] != '/';
    assert |a| == |b|;
    assert a == s[..|a|] && b == s[..|b|];
    assert x == s[|a| + 1..] && y == s[|b| + 1..];
  }

  /* ---- NUL-joined identities ---- */

  /** Every value followed by one NUL: the preimage of a stable key. */
  function Joined(values: seq<string>): string
    requires values != []
  {
    if |values| == 1 then values[0] + "\0" else values[0] + "\0" + Joined(values[1..])
  }

  /** Splits at NUL: `head` collects the value being read. */
  function SplitFrom(head: string, s: string): seq<string>
    decreases |s|
  {
    if s == "" then []
    else if s[0] == '\0' then [head] + SplitFrom("", s[1..])
    else SplitFrom(head + [s[0]], s[1..])
  }

  function Split(s: string): seq<string> {
    SplitFrom("", s)
  }

  lemma {:induction false} SplitSkipsValue(head: string, value: string, rest: string)
    requires NulFree(value)
    ensures SplitFrom(head, value + "\0" + rest) == [head + value] + SplitFrom("", rest)
    decreases |value|
  {
    var s := value + "\0" + rest;
    if value == "" {
      assert s[1..] == rest;
      assert head + value == head;
    } else {
      assert s[1..] == value[1..] + "\0" + rest;
      SplitSkipsValue(head + [value[0]], value[1..], rest);
      assert head + [value[0]] + value[1..] == head + value;
    }
  }

  /** NUL-free values can be read back from their joined identity. */
  lemma {:induction false} SplitJoined(values: seq<string>)
    requires values != []
    requires forall v :: v in values ==> NulFree(v)
    ensures Split(Joined(values)) == values
  {
    if |values| == 1 {
      assert Joined(values) == values[0] + "\0" + "";
      SplitSkipsValue("", values[0], "");
      assert "" + values[0] == values[0];
    } else {
      SplitSkipsValue("", values[0], Joined(values[1..]));
      assert "" + values[0] == values[0];
      SplitJoined(values[1..]);
    }
  }

  /** Hence the identity determines the values, whatever their number. */
  lemma {:induction false} JoinedInjective(a: seq<string>, b: seq<string>)
    requires a != [] && b != []
    requires forall v :: v in a ==> NulFree(v)
    requires forall v :: v in b ==> NulFree(v)
    requires Joined(a) == Joined(b)
    ensures a == b
  {
    SplitJoined(a);
    SplitJoined(b);
  }

  /* ---- Decimal numerals ---- */

  predicate IsDigit(c: char) {
    '0' <= c <= '9'
  }

  function Digit(d: nat): char
    requires d < 10
  {
    '0' + d as char
  }

  function DigitValue(c: char): nat
    requires IsDigit(c)
  {
    c as nat - '0' as nat
  }

  predicate AllDigits(s: string) {
    forall i :: 0 <= i < |s| ==> IsDigit(s[i])
  }

  /** `strconv.Itoa` on a non-negative number. */
  function Format(n: nat): string {
    if n < 10 then [Digit(n)] else Format(n / 10) + [Digit(n % 10)]
  }

  function Parse(s: string): nat
    requires AllDigits(s)
  {
    if s == "" then 0 else 10 * Parse(s[..|s| - 1]) + DigitValue(s[|s| - 1])
  }

  lemma {:induction false} ParseFormat(n: nat)
    ensures Format(n) != "" && AllDigits(Format(n)) && Parse(Format(n)) == n
  {
    if n < 10 {
      assert Format(n)[..0] == "";
    } else {
      ParseFormat(n / 10);
      assert Format(n)[..|Format(n)| - 1] == Format(n / 10);
    }
  }

  lemma {:induction false} FormatInjective(a: nat, b: nat)
    requires Format(a) == Format(b)
    ensures a == b
  {
    ParseFormat(a);
    ParseFormat(b);
  }

  lemma {:induction false} FormatNulFree(n: nat)
    ensures NulFree(Format(n)) && '.' !in Format(n)
  {
    ParseFormat(n);
  }

  function Pow10(k: nat): (p: nat)
    ensures p > 0
  {
    if k == 0 then 1 else 10 * Pow10(k - 1)
  }

  /** The low `width` decimal digits of `n`, most significant first. */
  function Padded(n: nat, width: nat): (s: string)
    ensures |s| == width && AllDigits(s)
  {
    if width == 0 then "" else Padded(n / 10, width - 1) + [Digit(n % 10)]
  }

  lemma {:induction false} ParsePadded(n: nat, width: nat)
    requires n < Pow10(width)
    ensures Parse(Padded(n, width)) == n
  {
    if width > 0 {
      assert Padded(n, width)[..width - 1] == Padded(n / 10, width - 1);
      ParsePadded(n / 10, width - 1);
    }
  }

  /* ---- Byte order ---- */

  /** Strict lexicographic order, the order in which a bucket is iterated. */
  predicate Less(a: string, b: string) {
    && b != ""
    && (a == "" || a[0] < b[0] || (a[0] == b[0] && Less(a[1..], b[1..])))
  }

  lemma {:induction false} LessIrreflexive(a: string)
    ensures !Less(a, a)
  {
    if a != "" { LessIrreflexive(a[1..]); }
  }

  lemma {:induction false} LessTransitive(a: string, b: string, c: string)
    requires Less(a, b) && Less(b, c)
    ensures Less(a, c)
  {
    if a != "" && a[0] == b[0] && b[0] == c[0] {
      LessTransitive(a[1..], b[1..], c[1..]);
    }
  }

  lemma {:induction false} LessTotal(a: string, b: string)
    requires a != b
    ensures Less(a, b) || Less(b, a)
  {
    if a != "" && b != "" && a[0] == b[0] {
      assert a == [a[0]] + a[1..] && b == [b[0]] + b[1..];
      LessTotal(a[1..], b[1..]);
    }
  }

  lemma {:induction false} LessAsymmetric(a: string, b: string)
    requires Less(a, b)
    ensures !Less(b, a)
  {
    if Less(b, a) {
      LessTransitive(a, b, a);
      LessIrreflexive(a);
    }
  }

  lemma {:induction false} LessSnoc(a: string, b: string, x: char, y: char)
    requires |a| == |b|
    ensures Less(a + [x], b + [y]) <==> Less(a, b) || (a == b && x < y)
  {
    if a != "" {
      assert (a + [x])[1..] == a[1..] + [x] && (b + [y])[1..] == b[1..] + [y];
      assert a == [a[0]] + a[1..] && b == [b[0]] + b[1..];
      LessSnoc(a[1..], b[1..], x, y);
    }
  }

  /** On zero-padded numerals byte order is numeric order. */
  lemma {:induction false} PaddedOrder(a: nat, b: nat, width: nat)
    requires a < Pow10(width) && b < Pow10(width)
    ensures Less(Padded(a, width), Padded(b, width)) <==> a < b
  {
    if width > 0 {
      PaddedOrder(a / 10, b / 10, width - 1);
      LessSnoc(Padded(a / 10, width - 1), Padded(b / 10, width - 1), Digit(a % 10), Digit(b % 10));
      if a / 10 != b / 10 {
        ParsePadded(a / 10, width - 1);
        ParsePadded(b / 10, width - 1);
      }
    }
  }

  /* ---- Iterating a bucket in key order ---- */

  ghost predicate IsSorted(keys: seq<string>) {
    forall i, j :: 0 <= i < j < |keys| ==> Less(keys[i], keys[j])
  }

  predicate IsMin(m: string, s: set<string>) {
    m in s && forall k :: k in s && k != m ==> Less(m, k)
  }

  lemma {:induction false} MinExists(s: set<string>)
    requires s != {}
    ensures exists m :: IsMin(m, s)
    decreases |s|
  {
    var x :| x in s;
    var rest := s - {x};
    if rest == {} {
      assert s == {x};
      assert IsMin(x, s);
    } else {
      MinExists(rest);
      var m :| IsMin(m, rest);
      LessTotal(x, m);
      if Less(x, m) {
        forall k | k in s && k != x ensures Less(x, k) {
          if k != m { LessTransitive(x, m, k); }
        }
        assert IsMin(x, s);
      } else {
        assert IsMin(m, s);
      }
    }
  }

  lemma MinUnique(a: string, b: string, s: set<string>)
    requires IsMin(a, s) && IsMin(b, s)
    ensures a == b
  {
    if a != b { LessAsymmetric(a, b); }
  }

  function MinKey(s: set<string>): (m: string)
    requires s != {}
    ensures IsMin(m, s)
  {
    MinExists(s);
    assert forall a, b :: IsMin(a, s) && IsMin(b, s) ==> a == b by {
      forall a, b | IsMin(a, s) && IsMin(b, s) ensures a == b { MinUnique(a, b, s); }
    }
    var m :| IsMin(m, s);
    m
  }

  /** The keys of a bucket in the order `ForEach` visits them. */
  function SortedKeys(s: set<string>): (keys: seq<string>)
    ensures forall k :: k in keys <==> k in s
    ensures |keys| == |s|
    ensures IsSorted(keys)
    decreases |s|
  {
    if s == {} then [] else
      var m := MinKey(s);
      [m] + SortedKeys(s - {m})
  }

  lemma {:induction false} SortedUnique(a: seq<string>, b: seq<string>)
    requires IsSorted(a) && IsSorted(b)
    requires forall k :: k in a <==> k in b
    ensures a == b
  {
    assert b != [] ==> b[0] in a;
    if a != [] {
      assert a[0] in b;
      SortedHeadsAgree(a, b);
      SortedTailMembers(a);
      SortedTailMembers(b);
      SortedUnique(a[1..], b[1..]);
      assert a == [a[0]] + a[1..] && b == [b[0]] + b[1..];
    }
  }

  lemma SortedHeadsAgree(a: seq<string>, b: seq<string>)
    requires IsSorted(a) && IsSorted(b) && a != [] && b != []
    requires a[0] in b && b[0] in a
    ensures a[0] == b[0]
  {
    if a[0] != b[0] {
      var i :| 0 <= i < |a| && a[i] == b[0];
      var j :| 0 <= j < |b| && b[j] == a[0];
      assert Less(a[0], a[i]);
      assert Less(b[0], b[j]);
      LessAsymmetric(a[0], b[0]);
    }
  }

  lemma SortedTailMembers(a: seq<string>)
    requires IsSorted(a) && a != []
    ensures IsSorted(a[1..])
    ensures forall k :: k in a[1..] <==> k in a && k != a[0]
  {
    LessIrreflexive(a[0]);
    forall k | k in a && k != a[0] ensures k in a[1..] {
      var i :| 0 <= i < |a| && a[i] == k;
      assert a[1..][i - 1] == k;
    }
  }
}
