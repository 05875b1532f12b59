/** String operations of Go's `strings` and `strconv` packages, on sequences of characters. */
module Text {
  import opened Common
  import opened Int64

  /** The byte order of SQLite's TEXT comparison, for texts of ASCII characters. */
  predicate LexLeq(a: string, b: string) {
    a == [] || (b != [] && (a[0] < b[0] || (a[0] == b[0] && LexLeq(a[1..], b[1..]))))
  }

  lemma {:induction false} LexReflexive(a: string)
    ensures LexLeq(a, a)
  {
    if a != [] {
      LexReflexive(a[1..]);
    }
  }

  lemma {:induction false} LexTotal(a: string, b: string)
    ensures LexLeq(a, b) || LexLeq(b, a)
  {
    if a != [] && b != [] && a[0] == b[0] {
      LexTotal(a[1..], b[1..]);
    }
  }

  lemma {:induction false} LexAntisymmetric(a: string, b: string)
    requires LexLeq(a, b) && LexLeq(b, a)
    ensures a == b
  {
    if a != [] && b != [] {
      LexAntisymmetric(a[1..], b[1..]);
      assert a == [a[0]] + a[1..] && b == [b[0]] + b[1..];
    }
  }

  lemma {:induction false} LexTransitive(a: string, b: string, c: string)
    requires LexLeq(a, b) && LexLeq(b, c)
    ensures LexLeq(a, c)
  {
    if a != [] && a[0] == b[0] == c[0] {
      LexTransitive(a[1..], b[1..], c[1..]);
    }
  }

  // ---- Splitting at a separator ----

  /** The position of the first `c`, or the length if there is none. */
  function IndexOf(s: string, c: char): (i: nat)
    ensures i <= |s| && c !in s[..i] && (i < |s| ==> s[i] == c) && (i == |s| <==> c !in s)
  {
    if s == [] then 0
    else if s[0] == c then 0
    else
      var i := IndexOf(s[1..], c);
      assert s[..i + 1] == [s[0]] + s[1..][..i];
      i + 1
  }

  /** strings.Split by a one-character separator. */
  function Split(s: string, c: char): (parts: seq<string>)
    ensures parts != []
    decreases |s|
  {
    var i := IndexOf(s, c);
    if i == |s| then [s] else [s[..i]] + Split(s[i + 1..], c)
  }

  // ---- Numbers ----

  predicate AllDigits(s: string) {
    forall i :: 0 <= i < |s| ==> '0' <= s[i] <= '9'
  }

  function DigitsValue(s: string): nat
    requires AllDigits(s)
  {
    if s == [] then 0 else 10 * DigitsValue(s[..|s| - 1]) + (s[|s| - 1] - '0') as nat
  }

  function Power10(n: nat): nat {
    if n == 0 then 1 else 10 * Power10(n - 1)
  }

  /** strconv.Atoi on a 64-bit platform: an optional sign, decimal digits, in range. */
  function Atoi(s: string): (v: Option<int>)
    ensures v.Some? ==> -TWO_63 <= v.value < TWO_63
  {
    var negative := s != [] && s[0] == '-';
    var digits := if s != [] && (s[0] == '-' || s[0] == '+') then s[1..] else s;
    if digits == [] || !AllDigits(digits) then None
    else
      var value: int := DigitsValue(digits);
      var n := if negative then -value else value;
      if -TWO_63 <= n < TWO_63 then Some(n) else None
  }

  // ---- White space ----

  /** unicode.IsSpace. */
  predicate IsSpace(c: char) {
    '\t' <= c <= '\r' || c == ' ' || c == '\U{85}' || c == '\U{A0}' || c == '\U{1680}' || '\U{2000}' <= c <= '\U{200A}'
    || c == '\U{2028}' || c == '\U{2029}' || c == '\U{202F}' || c == '\U{205F}' || c == '\U{3000}'
  }

  predicate IsWord(w: string) {
    w != [] && forall i :: 0 <= i < |w| ==> !IsSpace(w[i])
  }

  function Flushed(word: string): seq<string> {
    if word == [] then [] else [word]
  }

  /** The words of `s`, when `word` has been read of the first one. */
  function FieldsFrom(word: string, s: string): seq<string>
    decreases |s|
  {
    if s == [] then Flushed(word)
    else if IsSpace(s[0]) then Flushed(word) + FieldsFrom([], s[1..])
    else FieldsFrom(word + [s[0]], s[1..])
  }

  /** strings.Fields. */
  function Fields(s: string): seq<string> {
    FieldsFrom([], s)
  }

  /** strings.Join with a space. */
  function JoinWords(words: seq<string>): string {
    if words == [] then [] else if |words| == 1 then words[0] else words[0] + " " + JoinWords(words[1..])
  }

  lemma {:induction false} FieldsAreWords(word: string, s: string)
    requires word == [] || IsWord(word)
    ensures forall i :: 0 <= i < |FieldsFrom(word, s)| ==> IsWord(FieldsFrom(word, s)[i])
    decreases |s|
  {
    if s != [] {
      if IsSpace(s[0]) {
        FieldsAreWords([], s[1..]);
      } else {
        FieldsAreWords(word + [s[0]], s[1..]);
      }
    }
  }

  /** A word runs up to the next space or the end. */
  lemma {:induction false} WordThenRest(done: string, w: string, rest: string)
    requires forall i :: 0 <= i < |w| ==> !IsSpace(w[i])
    requires rest == [] || IsSpace(rest[0])
    ensures FieldsFrom(done, w + rest) == Flushed(done + w) + (if rest == [] then [] else FieldsFrom([], rest[1..]))
    decreases |w|
  {
    if w == [] {
      assert w + rest == rest && done + w == done;
    } else {
      assert (w + rest)[0] == w[0] && (w + rest)[1..] == w[1..] + rest;
      assert done + [w[0]] + w[1..] == done + w;
      WordThenRest(done + [w[0]], w[1..], rest);
    }
  }

  /** Splitting a join of words gives the words back. */
  lemma {:induction false} FieldsOfJoin(words: seq<string>)
    requires forall i :: 0 <= i < |words| ==> IsWord(words[i])
    ensures Fields(JoinWords(words)) == words
    decreases |words|
  {
    if |words| == 1 {
      WordThenRest([], words[0], []);
      assert words[0] + [] == words[0] && [] + words[0] == words[0];
    } else if |words| > 1 {
      var rest := " " + JoinWords(words[1..]);
      FieldsOfJoin(words[1..]);
      WordThenRest([], words[0], rest);
      assert rest[1..] == JoinWords(words[1..]);
      assert words[0] + " " + JoinWords(words[1..]) == words[0] + rest && [] + words[0] == words[0];
      assert words == [words[0]] + words[1..];
    }
  }
}
