/** The ASCII part of Go's `strings` and `strconv` that the Go programs here use.
    A `char` stands for one byte. */
module Text {

  datatype Option<+T> = None | Some(value: T)

  const MAX_INT: int := 0x7fff_ffff_ffff_ffff

  predicate IsSpace(c: char) {
    c == ' ' || 9 <= c as int <= 13
  }

  function TrimLeft(s: string): (r: string)
    ensures |r| <= |s| && r == s[|s| - |r|..]
    ensures r == [] || !IsSpace(r[0])
  {
    if s != [] && IsSpace(s[0]) then TrimLeft(s[1..]) else s
  }

  function TrimRight(s: string): (r: string)
    ensures |r| <= |s| && r == s[..|r|]
    ensures r == [] || !IsSpace(r[|r| - 1])
  {
    if s != [] && IsSpace(s[|s| - 1]) then TrimRight(s[..|s| - 1]) else s
  }

  function TrimSpace(s: string): string {
    TrimRight(TrimLeft(s))
  }

  /** White space after a text that ends in something else is trimmed away. */
  lemma {:induction false} TrimSpaceSuffix(s: string, tail: string)
    requires forall i :: 0 <= i < |tail| ==> IsSpace(tail[i])
    requires s != [] && !IsSpace(s[0]) && !IsSpace(s[|s| - 1])
    ensures TrimSpace(s + tail) == s
    decreases |tail|
  {
    if tail == [] {
      assert s + tail == s;
    } else {
      var t := s + tail;
      assert t[..|t| - 1] == s + tail[..|tail| - 1];
      assert TrimLeft(t) == t && TrimLeft(s + tail[..|tail| - 1]) == s + tail[..|tail| - 1];
      TrimSpaceSuffix(s, tail[..|tail| - 1]);
    }
  }

  function LowerChar(c: char): char {
    if 'A' <= c <= 'Z' then c - 'A' + 'a' else c
  }

  function Lower(s: string): (r: string)
    ensures |r| == |s|
  {
    seq(|s|, i requires 0 <= i < |s| => LowerChar(s[i]))
  }

  predicate EqualFold(a: string, b: string) {
    Lower(a) == Lower(b)
  }

  /** The white space of ASCII. */
  lemma WhiteSpace(c: char)
    ensures IsSpace(c) <==> c in " \t\n\U{B}\U{C}\r"
  {
  }

  /** The same character, or a capital and its small letter. */
  predicate SameLetter(c: char, d: char) {
    c == d || ('A' <= c <= 'Z' && d as int == c as int + 32) || ('A' <= d <= 'Z' && c as int == d as int + 32)
  }

  lemma FoldedCharacters(c: char, d: char)
    ensures LowerChar(c) == LowerChar(d) <==> SameLetter(c, d)
  {
  }

  /** Folding letter cases equates exactly the capitals with their small letters. */
  lemma EqualFoldIsLetterwise(a: string, b: string)
    ensures EqualFold(a, b) <==> |a| == |b| && forall i :: 0 <= i < |a| ==> SameLetter(a[i], b[i])
  {
    hide LowerChar, SameLetter;
    assert Lower(a) == Lower(b) <==> |a| == |b| && forall i :: 0 <= i < |a| ==> LowerChar(a[i]) == LowerChar(b[i]) by {
      if Lower(a) == Lower(b) {
        forall i | 0 <= i < |a| ensures LowerChar(a[i]) == LowerChar(b[i]) {
          assert Lower(a)[i] == Lower(b)[i];
        }
      }
    }
    forall i | 0 <= i < |a| && |a| == |b| ensures LowerChar(a[i]) == LowerChar(b[i]) <==> SameLetter(a[i], b[i]) {
      FoldedCharacters(a[i], b[i]);
    }
  }

  lemma {:induction false} TrimLeftSkips(before: string, core: string)
    requires forall i :: 0 <= i < |before| ==> IsSpace(before[i])
    requires core == [] || !IsSpace(core[0])
    ensures TrimLeft(before + core) == core
  {
    if before == [] {
      assert before + core == core;
    } else {
      assert (before + core)[1..] == before[1..] + core;
      TrimLeftSkips(before[1..], core);
    }
  }

  /** Trimming takes away the white space around a text and nothing else. */
  lemma TrimSpaceAround(before: string, core: string, after: string)
    requires forall i :: 0 <= i < |before| ==> IsSpace(before[i])
    requires forall i :: 0 <= i < |after| ==> IsSpace(after[i])
    requires core == [] || (!IsSpace(core[0]) && !IsSpace(core[|core| - 1]))
    ensures TrimSpace(before + core + after) == core
  {
    if core == [] {
      assert before + core + after == (before + after) + [];
      TrimLeftSkips(before + after, []);
    } else {
      assert before + core + after == before + (core + after);
      TrimLeftSkips(before, core + after);
      TrimLeftSkips([], core + after);
      assert [] + (core + after) == core + after;
      TrimSpaceSuffix(core, after);
    }
  }

  /** How many leading bytes are not white space. */
  function TokenLength(s: string): (n: nat)
    ensures n <= |s|
    ensures forall i :: 0 <= i < n ==> !IsSpace(s[i])
    ensures n < |s| ==> IsSpace(s[n])
  {
    if s == [] || IsSpace(s[0]) then 0 else 1 + TokenLength(s[1..])
  }

  function Fields(s: string): seq<string>
    decreases |s|
  {
    var t := TrimLeft(s);
    if t == [] then []
    else
      var n := TokenLength(t);
      [t[..n]] + Fields(t[n..])
  }

  /** A non-empty word without white space. */
  predicate IsToken(s: string) {
    s != [] && forall i :: 0 <= i < |s| ==> !IsSpace(s[i])
  }

  function Join(tokens: seq<string>): string {
    if tokens == [] then []
    else if |tokens| == 1 then tokens[0]
    else tokens[0] + " " + Join(tokens[1..])
  }

  lemma TokenLengthUnique(s: string, n: nat)
    requires n <= |s|
    requires forall i :: 0 <= i < n ==> !IsSpace(s[i])
    requires n < |s| ==> IsSpace(s[n])
    ensures TokenLength(s) == n
  {
  }

  lemma {:induction false} JoinEnds(tokens: seq<string>)
    requires tokens != [] && forall i :: 0 <= i < |tokens| ==> IsToken(tokens[i])
    ensures var s := Join(tokens);
      s != [] && !IsSpace(s[0]) && !IsSpace(s[|s| - 1]) && tokens[0] <= s
    ensures forall i :: 0 <= i < |Join(tokens)| ==> !IsSpace(Join(tokens)[i]) || Join(tokens)[i] == ' '
  {
    if |tokens| > 1 {
      JoinEnds(tokens[1..]);
    }
  }

  /** What splitting does to a word that a space or nothing follows. */
  lemma FieldsStep(token: string, rest: string)
    requires IsToken(token)
    ensures Fields(token) == [token]
    ensures Fields(token + " " + rest) == [token] + Fields(" " + rest)
  {
    TokenLengthUnique(token, |token|);
    assert token[|token|..] == [] && token[..|token|] == token;
    var s := token + " " + rest;
    TokenLengthUnique(s, |token|);
    assert s[..|token|] == token && s[|token|..] == " " + rest;
    assert TrimLeft(s) == s;
  }

  lemma FieldsSkipSpace(rest: string)
    ensures Fields(" " + rest) == Fields(rest)
  {
    assert (" " + rest)[1..] == rest;
    assert TrimLeft(TrimLeft(rest)) == TrimLeft(rest);
  }

  lemma FieldsCons(token: string, rest: seq<string>, joined: string)
    requires IsToken(token) && Fields(joined) == rest
    ensures Fields(token + " " + joined) == [token] + rest
  {
    FieldsStep(token, joined);
    FieldsSkipSpace(joined);
  }

  predicate AllTokens(tokens: seq<string>) {
    forall i :: 0 <= i < |tokens| ==> IsToken(tokens[i])
  }

  lemma FirstToken(tokens: seq<string>)
    requires AllTokens(tokens) && tokens != []
    ensures IsToken(tokens[0]) && AllTokens(tokens[1..])
    ensures [tokens[0]] + tokens[1..] == tokens
  {
  }

  /** Splitting inverts joining. */
  lemma {:induction false} FieldsOfJoin(tokens: seq<string>)
    requires AllTokens(tokens)
    ensures Fields(Join(tokens)) == tokens
  {
    if tokens != [] {
      hide Fields, IsToken, AllTokens;
      FirstToken(tokens);
      if |tokens| == 1 {
        FieldsStep(tokens[0], []);
      } else {
        FieldsOfJoin(tokens[1..]);
        FieldsCons(tokens[0], tokens[1..], Join(tokens[1..]));
      }
    }
  }

  lemma Assoc<T>(a: seq<T>, b: seq<T>, c: seq<T>)
    ensures a + (b + c) == a + b + c
  {
  }

  lemma AppendNothing<T>(s: seq<T>)
    ensures s + [] == s && [] + s == s
  {
  }

  // ----- Cutting a text at a delimiter

  /** The first position of `pat` in `s`, or -1. */
  function Find(s: string, pat: string): (i: int)
    requires pat != []
    ensures -1 <= i && i + |pat| <= |s| + |pat|
    ensures i >= 0 ==> pat <= s[i..]
  {
    if s == [] then -1
    else if pat <= s then 0
    else
      var i := Find(s[1..], pat);
      if i < 0 then -1 else i + 1
  }

  /** It is the first one, and -1 means that there is none. */
  lemma {:induction false} FindIsFirst(s: string, pat: string, k: nat)
    requires pat != [] && k <= |s| && pat <= s[k..]
    ensures 0 <= Find(s, pat) <= k
  {
    if k > 0 && !(pat <= s) {
      assert s[k..] == s[1..][k - 1..];
      FindIsFirst(s[1..], pat, k - 1);
    } else if k == 0 {
      assert s[0..] == s;
    }
  }

  /** `${s%%PAT*}`: what stands before the first `pat`, or everything. */
  function Before(s: string, pat: string): string
    requires pat != []
  {
    var i := Find(s, pat);
    if i < 0 then s else s[..i]
  }

  /** `${s#*PAT}`: what stands behind the first `pat`, or everything. */
  function After(s: string, pat: string): string
    requires pat != []
  {
    var i := Find(s, pat);
    if i < 0 then s else s[i + |pat|..]
  }

  /** `${s##*C}`: what stands behind the last `c`, or everything. */
  function AfterLast(s: string, c: char): string {
    if c !in s then s else AfterLast(s[1..], c)
  }

  /** Where a text without the first character of `pat` stands before `pat`. */
  lemma {:induction false} FindBehind(head: string, pat: string, tail: string)
    requires pat != [] && pat[0] !in head
    ensures Find(head + pat + tail, pat) == |head|
  {
    if head != [] {
      assert (head + pat + tail)[1..] == head[1..] + pat + tail;
      assert (head + pat + tail)[0] == head[0];
      FindBehind(head[1..], pat, tail);
    } else {
      assert [] + pat + tail == pat + tail;
    }
  }

  lemma SplitAt(head: string, pat: string, tail: string)
    requires pat != [] && pat[0] !in head
    ensures Before(head + pat + tail, pat) == head
    ensures After(head + pat + tail, pat) == tail
  {
    FindBehind(head, pat, tail);
    var s := head + pat + tail;
    assert s[..|head|] == head && s[|head| + |pat|..] == tail;
  }

  lemma {:induction false} NotFound(s: string, pat: string)
    requires pat != [] && pat[0] !in s
    ensures Before(s, pat) == s && After(s, pat) == s
  {
    if s != [] {
      NotFound(s[1..], pat);
    }
  }

  lemma {:induction false} AfterLastOf(head: string, c: char, tail: string)
    requires c !in tail
    ensures AfterLast(head + [c] + tail, c) == tail
  {
    var s := head + [c] + tail;
    assert s[|head|] == c;
    if head == [] {
      assert s[1..] == tail;
    } else {
      assert s[1..] == head[1..] + [c] + tail;
      AfterLastOf(head[1..], c, tail);
    }
  }

  // ----- The order of strings

  /** The order of strings, character by character. */
  predicate Le(a: string, b: string) {
    a == [] || (b != [] && (a[0] < b[0] || (a[0] == b[0] && Le(a[1..], b[1..]))))
  }

  /** `a` has the smaller character where it first differs from `b`. */
  ghost predicate SmallerAt(a: string, b: string, k: nat) {
    k < |a| && k < |b| && a[..k] == b[..k] && a[k] < b[k]
  }

  /** `a` comes first exactly if it is a prefix of `b`, or smaller where they first differ. */
  lemma {:induction false} LeIsTheOrder(a: string, b: string)
    ensures Le(a, b) <==> a <= b || exists k: nat :: SmallerAt(a, b, k)
  {
    if a != [] && b != [] {
      if a[0] < b[0] {
        assert SmallerAt(a, b, 0);
      } else if a[0] == b[0] {
        LeIsTheOrder(a[1..], b[1..]);
        if k: nat :| SmallerAt(a[1..], b[1..], k) {
          assert a[..k + 1] == [a[0]] + a[1..][..k] && b[..k + 1] == [b[0]] + b[1..][..k];
          assert SmallerAt(a, b, k + 1);
        }
        if k: nat :| SmallerAt(a, b, k) {
          assert a[1..][..k - 1] == a[..k][1..] && b[1..][..k - 1] == b[..k][1..];
          assert SmallerAt(a[1..], b[1..], k - 1);
        }
        assert a == [a[0]] + a[1..] && b == [b[0]] + b[1..];
      } else {
        SmallerAtFirst(a, b);
      }
    }
  }

  lemma SmallerAtFirst(a: string, b: string)
    requires a != [] && b != []
    ensures (exists k: nat :: SmallerAt(a, b, k)) ==> a[0] <= b[0]
  {
    if k: nat :| SmallerAt(a, b, k) {
      assert k > 0 ==> a[..k][0] == a[0] && b[..k][0] == b[0];
    }
  }

  lemma LeTotal(a: string, b: string)
    ensures Le(a, b) || Le(b, a)
  {
  }

  lemma {:induction false} LeAntisymmetric(a: string, b: string)
    requires Le(a, b) && Le(b, a)
    ensures a == b
  {
    if a != [] {
      LeAntisymmetric(a[1..], b[1..]);
      assert a == [a[0]] + a[1..] && b == [b[0]] + b[1..];
    }
  }

  lemma {:induction false} LeTransitive(a: string, b: string, c: string)
    requires Le(a, b) && Le(b, c)
    ensures Le(a, c)
  {
    if a != [] && a[0] == b[0] == c[0] {
      LeTransitive(a[1..], b[1..], c[1..]);
    }
  }

  lemma LeReflexive(a: string)
    ensures Le(a, a)
  {
  }

  // ----- Decimal numbers

  predicate IsDigit(c: char) { '0' <= c <= '9' }

  function Itoa(n: nat): (s: string)
    ensures s != [] && forall i :: 0 <= i < |s| ==> IsDigit(s[i])
  {
    var last := [(n % 10) as char + '0'];
    if n < 10 then last else Itoa(n / 10) + last
  }

  function DigitValue(c: char): nat
    requires IsDigit(c)
  {
    c as int - '0' as int
  }

  /** The value of a run of digits. */
  function Digits(s: string): nat
    requires AllDigits(s)
  {
    if s == [] then 0 else 10 * Digits(s[..|s| - 1]) + DigitValue(s[|s| - 1])
  }

  function WithoutSign(s: string): string {
    if s != [] && (s[0] == '+' || s[0] == '-') then s[1..] else s
  }

  predicate AllDigits(s: string) {
    forall i :: 0 <= i < |s| ==> IsDigit(s[i])
  }

  /** `strconv.Atoi`: an optional sign, at least one digit, and a value that fits an int. */
  function Atoi(s: string): Option<int> {
    var body := WithoutSign(s);
    if body == [] || !AllDigits(body) then None
    else
      var magnitude: int := Digits(body);
      var v := if s[0] == '-' then -magnitude else magnitude;
      if -MAX_INT - 1 <= v <= MAX_INT then Some(v) else None
  }

  lemma {:induction false} DigitsOfItoa(n: nat)
    ensures Digits(Itoa(n)) == n
  {
    var s := Itoa(n);
    if n >= 10 {
      DigitsOfItoa(n / 10);
      assert s[..|s| - 1] == Itoa(n / 10);
    } else {
      assert s[..|s| - 1] == [];
    }
  }

  /** Every number an int can hold is read back, with any sign, and no larger one. */
  lemma AtoiOfItoa(n: nat)
    ensures Atoi(Itoa(n)) == Atoi("+" + Itoa(n)) == if n <= 0x7fff_ffff_ffff_ffff then Some(n) else None
    ensures Atoi("-" + Itoa(n)) == if n <= 0x8000_0000_0000_0000 then Some(0 - n as int) else None
  {
    DigitsOfItoa(n);
    var s := Itoa(n);
    assert IsDigit(s[0]);
    assert ("+" + s)[1..] == s && ("-" + s)[1..] == s;
  }

  /** What is no optional sign and digits is no number. */
  lemma AtoiRefuses(s: string, i: nat)
    ensures s in {"", "+", "-"} ==> Atoi(s) == None
    ensures i < |s| && !('0' <= s[i] <= '9') && !(i == 0 && (s[0] == '+' || s[0] == '-')) ==> Atoi(s) == None
  {
    if i < |s| && !IsDigit(s[i]) && !(i == 0 && (s[0] == '+' || s[0] == '-')) {
      assert !IsDigit(WithoutSign(s)[i - (|s| - |WithoutSign(s)|)]);
    }
  }

  lemma ItoaIsInjective(m: nat, n: nat)
    requires Itoa(m) == Itoa(n)
    ensures m == n
  {
    DigitsOfItoa(m);
    DigitsOfItoa(n);
  }
}
