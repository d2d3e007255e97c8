/**
 * Character classes and string functions of Python that the bill splitter relies on:
 * the whitespace class shared by `str.split()` and the regex escape `\s`, decimal
 * digits and their value, and whitespace tokenisation (`str.split()` with no argument).
 */
module Text {
  import opened Support

  /** Python's `str.isspace()`: the characters `str.split()` splits on and `\s` matches. */
  predicate IsSpace(c: char)
    ensures c in " \t\n\r\U{B}\U{C}" ==> IsSpace(c)
    ensures IsSpace(c) ==> !IsDigit(c) && c != '_' && c != '\U{A3}'
  {
    || '\t' <= c <= '\r'
    || '\U{1C}' <= c <= '\U{1F}'
    || c == ' '
    || c == '\U{85}'
    || c == '\U{A0}'
    || c == '\U{1680}'
    || '\U{2000}' <= c <= '\U{200A}'
    || c == '\U{2028}'
    || c == '\U{2029}'
    || c == '\U{202F}'
    || c == '\U{205F}'
    || c == '\U{3000}'
  }

  /** The regex class `\d`, restricted to ASCII digits. */
  predicate IsDigit(c: char)
  {
    '0' <= c <= '9'
  }

  predicate AllDigits(s: string)
  {
    forall i :: 0 <= i < |s| ==> IsDigit(s[i])
  }

  predicate NoNewline(s: string)
  {
    forall i :: 0 <= i < |s| ==> s[i] != '\n'
  }

  lemma NoNewlineSlice(s: string, a: nat, b: nat)
    requires NoNewline(s) && a <= b <= |s|
    ensures NoNewline(s[a..b])
  {
    assert forall i :: 0 <= i < b - a ==> s[a..b][i] == s[a + i];
  }

  lemma NoNewlineOne(s: string, i: nat)
    requires i < |s| && s[i] != '\n'
    ensures NoNewline(s[i..i + 1])
  {
    assert s[i..i + 1] == [s[i]];
  }

  function Pow10(k: nat): (r: nat)
    ensures r >= 1
  {
    if k == 0 then 1 else 10 * Pow10(k - 1)
  }

  /** The number a string of decimal digits denotes, as Python's `int()` reads it (leading zeros allowed). */
  function DigitsValue(s: string): (v: nat)
    requires AllDigits(s)
    ensures v < Pow10(|s|)
  {
    if s == [] then 0
    else 10 * DigitsValue(s[..|s| - 1]) + (s[|s| - 1] as int - '0' as int)
  }

  lemma AllDigitsAppend(a: string, b: string)
    requires AllDigits(a) && AllDigits(b)
    ensures AllDigits(a + b)
  {
    assert forall i :: |a| <= i < |a + b| ==> (a + b)[i] == b[i - |a|];
  }

  /** One more digit `d` after a value `x * y + z`: the arithmetic of a shifted decimal. */
  lemma DigitStep(x: int, y: int, z: int, d: int, v: int, w: int, u: int)
    requires v == 10 * (x * y + z) + d && w == 10 * y && u == 10 * z + d
    ensures v == x * w + u
  {
  }

  lemma DropLastAppend<T>(a: seq<T>, b: seq<T>)
    requires b != []
    ensures (a + b)[..|a + b| - 1] == a + b[..|b| - 1] && (a + b)[|a + b| - 1] == b[|b| - 1]
  {
  }

  /** The value of `a + b` with the last digit of `b` split off. */
  lemma DigitsValueLast(a: string, b: string)
    requires AllDigits(a) && AllDigits(b) && b != []
    ensures AllDigits(a + b) && AllDigits(a + b[..|b| - 1])
    ensures DigitsValue(a + b) == 10 * DigitsValue(a + b[..|b| - 1]) + (b[|b| - 1] as int - '0' as int)
  {
    AllDigitsAppend(a, b);
    AllDigitsAppend(a, b[..|b| - 1]);
    DropLastAppend(a, b);
  }

  lemma {:induction false} DigitsValueAppend(a: string, b: string)
    requires AllDigits(a) && AllDigits(b)
    ensures AllDigits(a + b)
    ensures DigitsValue(a + b) == DigitsValue(a) * Pow10(|b|) + DigitsValue(b)
    decreases |b|
  {
    AllDigitsAppend(a, b);
    if b == [] {
      assert a + b == a;
    } else {
      var b' := b[..|b| - 1];
      var d := b[|b| - 1] as int - '0' as int;
      DigitsValueAppend(a, b');
      DigitsValueLast(a, b);
      DigitStep(DigitsValue(a), Pow10(|b'|), DigitsValue(b'), d, DigitsValue(a + b), Pow10(|b|), DigitsValue(b));
    }
  }

  // ---------------------------------------------------------------------------
  // Whitespace tokenisation: str.split()

  /** A token of `str.split()`: non-empty and free of whitespace. */
  predicate IsToken(t: string)
  {
    t != [] && forall i :: 0 <= i < |t| ==> !IsSpace(t[i])
  }

  predicate AllTokens(ts: seq<string>)
  {
    forall i :: 0 <= i < |ts| ==> IsToken(ts[i])
  }

  function Flush(word: string): seq<string>
  {
    if word == [] then [] else [word]
  }

  /** Splits `s` at runs of whitespace, `word` being the token read so far. */
  function Words(s: string, word: string): (r: seq<string>)
    requires forall i :: 0 <= i < |word| ==> !IsSpace(word[i])
    ensures AllTokens(r)
  {
    if s == [] then Flush(word)
    else if IsSpace(s[0]) then Flush(word) + Words(s[1..], [])
    else Words(s[1..], word + [s[0]])
  }

  /** `s.split()`: the maximal whitespace-free runs of `s`, in order. */
  function Split(s: string): (r: seq<string>)
    ensures AllTokens(r)
  {
    Words(s, [])
  }

  /** Tokens written back with one space between them, as a person answers the purchaser prompt. */
  function Join(ts: seq<string>): string
  {
    if ts == [] then ""
    else if |ts| == 1 then ts[0]
    else ts[0] + " " + Join(ts[1..])
  }

  /** All characters of `s` that are not whitespace, in order. */
  function NonSpace(s: string): (r: string)
    ensures forall i :: 0 <= i < |r| ==> !IsSpace(r[i])
  {
    if s == [] then ""
    else if IsSpace(s[0]) then NonSpace(s[1..])
    else [s[0]] + NonSpace(s[1..])
  }

  function Concat(ts: seq<string>): string
  {
    if ts == [] then "" else ts[0] + Concat(ts[1..])
  }

  lemma {:induction false} ConcatAppend(a: seq<string>, b: seq<string>)
    ensures Concat(a + b) == Concat(a) + Concat(b)
  {
    if a == [] {
      assert a + b == b;
    } else {
      assert (a + b)[1..] == a[1..] + b;
      ConcatAppend(a[1..], b);
    }
  }

  lemma {:induction false} WordsAtSpace(a: string, c: char, b: string, word: string)
    requires IsSpace(c)
    requires forall i :: 0 <= i < |word| ==> !IsSpace(word[i])
    ensures Words(a + [c] + b, word) == Words(a, word) + Words(b, [])
    decreases |a|
  {
    if a == [] {
      assert a + [c] + b == [c] + b;
      assert ([c] + b)[1..] == b;
    } else {
      assert (a + [c] + b)[0] == a[0];
      assert (a + [c] + b)[1..] == a[1..] + [c] + b;
      if IsSpace(a[0]) {
        WordsAtSpace(a[1..], c, b, []);
      } else {
        WordsAtSpace(a[1..], c, b, word + [a[0]]);
      }
    }
  }

  /** A whitespace character separates: what is left of it and what is right of it are split independently. */
  lemma SplitAtSpace(a: string, c: char, b: string)
    requires IsSpace(c)
    ensures Split(a + [c] + b) == Split(a) + Split(b)
  {
    WordsAtSpace(a, c, b, []);
  }

  lemma {:induction false} WordsOfToken(w: string, word: string)
    requires forall i :: 0 <= i < |w| ==> !IsSpace(w[i])
    requires forall i :: 0 <= i < |word| ==> !IsSpace(word[i])
    ensures Words(w, word) == Flush(word + w)
    decreases |w|
  {
    if w == [] {
      assert word + w == word;
    } else {
      assert word + [w[0]] + w[1..] == word + w;
      WordsOfToken(w[1..], word + [w[0]]);
    }
  }

  /** A single whitespace-free word splits into itself. */
  lemma SplitToken(w: string)
    requires IsToken(w)
    ensures Split(w) == [w]
  {
    WordsOfToken(w, []);
    assert [] + w == w;
  }

  lemma {:induction false} WordsEmpty(s: string, word: string)
    requires forall i :: 0 <= i < |word| ==> !IsSpace(word[i])
    ensures Words(s, word) == [] <==> word == [] && forall i :: 0 <= i < |s| ==> IsSpace(s[i])
    decreases |s|
  {
    if s != [] {
      if IsSpace(s[0]) {
        WordsEmpty(s[1..], []);
        assert forall i :: 0 <= i < |s[1..]| ==> s[1..][i] == s[i + 1];
      } else {
        WordsEmpty(s[1..], word + [s[0]]);
      }
    }
  }

  /** A blank answer (empty, or whitespace only) gives no purchasers, and only a blank answer does. */
  lemma SplitBlank(s: string)
    ensures Split(s) == [] <==> forall i :: 0 <= i < |s| ==> IsSpace(s[i])
  {
    WordsEmpty(s, []);
  }

  lemma FlushConcat(word: string)
    ensures Concat(Flush(word)) == word
  {
    assert Concat(Flush(word)) == word + Concat([]);
  }

  lemma {:induction false} WordsNonSpace(s: string, word: string)
    requires forall i :: 0 <= i < |word| ==> !IsSpace(word[i])
    ensures Concat(Words(s, word)) == word + NonSpace(s)
    decreases |s|
  {
    if s == [] {
      FlushConcat(word);
    } else if IsSpace(s[0]) {
      WordsNonSpace(s[1..], []);
      ConcatAppend(Flush(word), Words(s[1..], []));
      FlushConcat(word);
    } else {
      WordsNonSpace(s[1..], word + [s[0]]);
      ConcatAssoc(word, [s[0]], NonSpace(s[1..]));
    }
  }

  /** Splitting loses exactly the whitespace: the tokens put together are the answer without its whitespace. */
  lemma SplitKeepsNonSpace(s: string)
    ensures Concat(Split(s)) == NonSpace(s)
  {
    WordsNonSpace(s, []);
  }

  /** Round trip: identifiers separated by single spaces are split back into the same identifiers. */
  lemma {:induction false} SplitJoin(ts: seq<string>)
    requires AllTokens(ts)
    ensures Split(Join(ts)) == ts
  {
    if ts == [] {
      SplitBlank("");
    } else if |ts| == 1 {
      SplitToken(ts[0]);
    } else {
      assert ts[0] + " " + Join(ts[1..]) == ts[0] + [' '] + Join(ts[1..]);
      SplitAtSpace(ts[0], ' ', Join(ts[1..]));
      SplitToken(ts[0]);
      SplitJoin(ts[1..]);
    }
  }
}
