/**
 * Receipt extraction (`parse_receipt`): the order-confirmation text is scanned with
 * regular expressions for the item lines, the delivery date, the delivery cost and
 * the voucher saving, and turned into a list of purchases and a reconciled total.
 *
 * The regular expressions are written out as functions that follow Python's `re`
 * engine: a pattern is tried at the leftmost position first, a greedy `?` tries the
 * longer alternative first and a lazy `+?` the shorter one.
 */
module Receipt {
  import opened Support
  import opened Text

  /** The currency marker `£` (U+00A3). */
  const Pound: char := '\U{A3}'

  /** One entry of the purchase list: a receipt line, or the synthetic delivery or voucher entry. */
  datatype Purchase = Purchase(description: string, price: real, quantity: nat)

  /** The three groups the item pattern captures on one line, still as text. */
  datatype ItemMatch = ItemMatch(quantity: string, description: string, price: string)

  datatype OrderInfo = OrderInfo(deliveryDate: string, total: real)

  /** Why a receipt cannot be read: a search found nothing, or `float()` refused the voucher text. */
  datatype ParseError =
    | MissingDeliveryDate
    | MissingDeliveryCost
    | MissingVoucher
    | VoucherNotANumber(token: string)

  // ---------------------------------------------------------------------------
  // Prices: \d\d?\.\d\d

  /** Text of the form `\d\d?\.\d\d`. */
  predicate IsPriceText(p: string)
  {
    || (|p| == 4 && IsDigit(p[0]) && p[1] == '.' && IsDigit(p[2]) && IsDigit(p[3]))
    || (|p| == 5 && IsDigit(p[0]) && IsDigit(p[1]) && p[2] == '.' && IsDigit(p[3]) && IsDigit(p[4]))
  }

  predicate StartsWithPrice(s: string)
  {
    || (4 <= |s| && IsPriceText(s[..4]))
    || (5 <= |s| && IsPriceText(s[..5]))
  }

  /** How much `\d\d?\.\d\d` takes at the start of `s` (0: no match); the match, when there is one, is unique. */
  function PriceLen(s: string): (n: nat)
    ensures n <= |s|
    ensures n > 0 <==> StartsWithPrice(s)
    ensures n > 0 ==> IsPriceText(s[..n])
    ensures forall k :: 0 <= k <= |s| && IsPriceText(s[..k]) ==> k == n
  {
    if 5 <= |s| && IsPriceText(s[..5]) then 5
    else if 4 <= |s| && IsPriceText(s[..4]) then 4
    else 0
  }

  /** A whole number of pence is an amount with at most two decimals. */
  predicate TwoDecimals(v: real)
  {
    (v * 100.0).Floor as real == v * 100.0
  }

  /** A whole number of pence, written in pounds. */
  lemma Pence(cents: int)
    ensures TwoDecimals(cents as real / 100.0)
  {
    assert (cents as real / 100.0) * 100.0 == cents as real;
  }

  /**
   * `float()` of one or two digits, a point and two digits, exactly: the digits read
   * without the point, in pence; so at most 99.99, with at most two decimals.
   */
  function DecimalValue(whole: string, frac: string): (v: real)
    requires 1 <= |whole| <= 2 && AllDigits(whole)
    requires |frac| == 2 && AllDigits(frac)
    ensures AllDigits(whole + frac) && v * 100.0 == DigitsValue(whole + frac) as real
    ensures 0.0 <= v <= 99.99
    ensures TwoDecimals(v) && TwoDecimals(-v)
  {
    assert Pow10(1) == 10 && Pow10(2) == 100;
    var cents := 100 * DigitsValue(whole) + DigitsValue(frac);
    DigitsValueAppend(whole, frac);
    assert 0 <= cents <= 9999;
    Pence(cents);
    Pence(-cents);
    cents as real / 100.0
  }

  /** `float(p)` of a price text: the price in pence is the text without its point, read as digits. */
  function PriceValue(p: string): (v: real)
    requires IsPriceText(p)
    ensures IsAmountText(p) && v * 100.0 == DigitsValue(Unseparated(p)) as real
    ensures 0.0 <= v <= 99.99 && TwoDecimals(v)
  {
    DecimalValue(p[..|p| - 3], p[|p| - 2..])
  }

  // ---------------------------------------------------------------------------
  // Item lines: (^\d\d?) (.+?) £(\d\d?\.\d\d)

  /** The line starts with `q` digits, 1 or 2, and a space. */
  predicate QuantityAt(line: string, q: nat)
  {
    1 <= q <= 2 && q < |line| && AllDigits(line[..q]) && line[q] == ' '
  }

  /** ` £` and a price start at index `i`. */
  predicate PriceMarkAt(line: string, i: nat)
  {
    i + 2 <= |line| && line[i] == ' ' && line[i + 1] == Pound && StartsWithPrice(line[i + 2..])
  }

  /** The item pattern matches `line` with `q` quantity digits and an `n`-character description. */
  predicate ItemShape(line: string, q: nat, n: nat)
  {
    && QuantityAt(line, q)
    && 1 <= n
    && q + 1 + n <= |line|
    && NoNewline(line[q + 1..q + 1 + n])
    && PriceMarkAt(line, q + 1 + n)
  }

  /** A captured triple: 1-2 digits, a non-empty description without a newline, and a price text. */
  predicate WellFormed(m: ItemMatch)
  {
    && 1 <= |m.quantity| <= 2
    && AllDigits(m.quantity)
    && m.description != []
    && NoNewline(m.description)
    && IsPriceText(m.price)
  }

  /** Digits greedy `\d\d?` takes at the start of `line`; the only count after which a space can follow. */
  function QuantityLen(line: string): (q: nat)
    ensures q <= 2 && q <= |line|
    ensures forall k :: QuantityAt(line, k) ==> k == q
  {
    if 1 <= |line| && IsDigit(line[0]) then (if 2 <= |line| && IsDigit(line[1]) then 2 else 1) else 0
  }

  /** The lazy `.+?` that began at `start`: the first end at or after `e`, not past a newline, where ` £` and a price follow. */
  function DescEnd(line: string, start: nat, e: nat): (r: Option<nat>)
    requires start < e <= |line|
    requires NoNewline(line[start..e])
    decreases |line| - e
    ensures r.Some? ==> e <= r.value <= |line| && NoNewline(line[start..r.value]) && PriceMarkAt(line, r.value)
    ensures r.Some? ==> forall j :: e <= j < r.value ==> !PriceMarkAt(line, j)
    ensures r.None? ==> forall j :: e <= j <= |line| && NoNewline(line[start..j]) ==> !PriceMarkAt(line, j)
  {
    if PriceMarkAt(line, e) then Some(e)
    else if e < |line| && line[e] != '\n' then
      assert line[start..e + 1] == line[start..e] + [line[e]];
      DescEnd(line, start, e + 1)
    else
      assert forall j :: e < j <= |line| ==> line[start..j][e - start] == line[e];
      None
  }

  lemma FivePieces(s: string, a: nat, b: nat, c: nat, d: nat, e: nat)
    requires a <= b <= c <= d <= e <= |s|
    ensures s[..e] == s[..a] + s[a..b] + s[b..c] + s[c..d] + s[d..e]
  {
  }

  /**
   * The groups captured when the quantity has `q` digits and the description ends at `e`,
   * where ` £` and a price follow: well formed, a match of the item pattern, and the
   * pieces of the line in order.
   */
  function ItemAt(line: string, q: nat, e: nat): (m: ItemMatch)
    requires QuantityAt(line, q)
    requires q + 1 < e <= |line| && NoNewline(line[q + 1..e]) && PriceMarkAt(line, e)
    ensures WellFormed(m)
    ensures |m.quantity| == q && |m.description| == e - q - 1
    ensures ItemShape(line, q, e - q - 1)
    ensures |m.quantity| + |m.description| + 3 + |m.price| <= |line|
    ensures line[..|m.quantity| + |m.description| + 3 + |m.price|] == m.quantity + " " + m.description + " " + [Pound] + m.price
  {
    var p := e + 2;
    var n := PriceLen(line[p..]);
    assert line[p..][..n] == line[p..p + n];
    assert line[q..q + 1] == " ";
    assert line[e..p] == " " + [Pound];
    FivePieces(line, q, q + 1, e, p, p + n);
    ItemMatch(line[..q], line[q + 1..e], line[p..p + n])
  }

  /**
   * The item pattern tried at the start of one line, as `re.findall` reports its groups.
   * A reported item is a match of the whole pattern, and its groups are the pieces of the
   * line in order: quantity, space, description, space, `£`, price.
   */
  function MatchItem(line: string): (r: Option<ItemMatch>)
    ensures r.Some? ==> WellFormed(r.value)
    ensures r.Some? ==> ItemShape(line, |r.value.quantity|, |r.value.description|)
    ensures r.Some? ==>
      var m := r.value;
      && |m.quantity| + |m.description| + 3 + |m.price| <= |line|
      && line[..|m.quantity| + |m.description| + 3 + |m.price|] == m.quantity + " " + m.description + " " + [Pound] + m.price
  {
    var q := QuantityLen(line);
    if q == 0 || q + 1 >= |line| || line[q] != ' ' || line[q + 1] == '\n' then None
    else
      NoNewlineOne(line, q + 1);
      match DescEnd(line, q + 1, q + 2)
      case None => None
      case Some(e) =>
        assert QuantityAt(line, q);
        Some(ItemAt(line, q, e))
  }

  /** The description is the shortest one possible: no shorter description is followed by ` £` and a price. */
  lemma MatchItemLazy(line: string, k: nat)
    requires MatchItem(line).Some?
    requires 1 <= k < |MatchItem(line).value.description|
    ensures !ItemShape(line, |MatchItem(line).value.quantity|, k)
  {
  }

  /** Whenever the item pattern can match a line, `MatchItem` reports a match, with the forced quantity and a description no longer. */
  lemma MatchItemComplete(line: string, q: nat, n: nat)
    requires ItemShape(line, q, n)
    ensures MatchItem(line).Some?
    ensures |MatchItem(line).value.quantity| == q
    ensures |MatchItem(line).value.description| <= n
  {
    assert line[q + 1..q + 2] == line[q + 1..q + 1 + n][..1];
    assert line[q + 1] == line[q + 1..q + 1 + n][0];
  }

  /** What `findall` reports for one line: its match, if any. */
  function LineItems(line: string): (r: seq<ItemMatch>)
    ensures forall i :: 0 <= i < |r| ==> WellFormed(r[i])
  {
    match MatchItem(line)
    case Some(m) => [m]
    case None => []
  }

  /** The lines of `s` as `^` in MULTILINE mode sees them, `line` being the part of the current line read so far. */
  function LinesFrom(s: string, line: string): (r: seq<string>)
    ensures |r| >= 1
  {
    if s == [] then [line]
    else if s[0] == '\n' then [line] + LinesFrom(s[1..], [])
    else LinesFrom(s[1..], line + [s[0]])
  }

  /** The lines of the text: the pieces between newlines, in order. */
  function Lines(text: string): (r: seq<string>)
    ensures |r| >= 1
  {
    LinesFrom(text, [])
  }

  lemma {:induction false} LinesFromAppend(a: string, b: string, line: string)
    ensures LinesFrom(a + "\n" + b, line) == LinesFrom(a, line) + LinesFrom(b, [])
    decreases |a|
  {
    var t := a + "\n" + b;
    if a == [] {
      assert t[0] == '\n' && t[1..] == b;
    } else {
      assert t[0] == a[0] && t[1..] == a[1..] + "\n" + b;
      if a[0] == '\n' {
        LinesFromAppend(a[1..], b, []);
      } else {
        LinesFromAppend(a[1..], b, line + [a[0]]);
      }
    }
  }

  /** Joining two texts with a newline joins their lines. */
  lemma LinesAppend(a: string, b: string)
    ensures Lines(a + "\n" + b) == Lines(a) + Lines(b)
  {
    LinesFromAppend(a, b, []);
  }

  lemma {:induction false} LinesFromLine(s: string, line: string)
    requires NoNewline(s)
    ensures LinesFrom(s, line) == [line + s]
    decreases |s|
  {
    if s == [] {
      assert line + s == line;
    } else {
      assert s[0] != '\n';
      assert NoNewline(s[1..]) by {
        assert forall i :: 0 <= i < |s| - 1 ==> s[1..][i] == s[i + 1];
      }
      LinesFromLine(s[1..], line + [s[0]]);
      assert line + [s[0]] + s[1..] == line + s;
    }
  }

  /** A text without a newline is a single line. */
  lemma LinesOfLine(line: string)
    requires NoNewline(line)
    ensures Lines(line) == [line]
  {
    LinesFromLine(line, []);
    assert [] + line == line;
  }

  /** The items reported for a sequence of lines, line after line. */
  function ItemsOfLines(lines: seq<string>): (r: seq<ItemMatch>)
    ensures forall i :: 0 <= i < |r| ==> WellFormed(r[i])
  {
    if lines == [] then [] else LineItems(lines[0]) + ItemsOfLines(lines[1..])
  }

  lemma {:induction false} ItemsOfLinesAppend(x: seq<string>, y: seq<string>)
    ensures ItemsOfLines(x + y) == ItemsOfLines(x) + ItemsOfLines(y)
  {
    if x == [] {
      assert x + y == y;
    } else {
      assert (x + y)[0] == x[0] && (x + y)[1..] == x[1..] + y;
      ItemsOfLinesAppend(x[1..], y);
    }
  }

  /** `re.findall` of the item pattern in MULTILINE mode: at most one match per line, lines in text order. */
  function FindItems(text: string): (r: seq<ItemMatch>)
    ensures forall i :: 0 <= i < |r| ==> WellFormed(r[i])
  {
    ItemsOfLines(Lines(text))
  }

  /** Text order: the items of two lines of text are those of the first line followed by those of the second. */
  lemma FindItemsLines(a: string, b: string)
    ensures FindItems(a + "\n" + b) == FindItems(a) + FindItems(b)
  {
    LinesAppend(a, b);
    ItemsOfLinesAppend(Lines(a), Lines(b));
  }

  /** A single line yields its own match, if any. */
  lemma FindItemsLine(line: string)
    requires NoNewline(line)
    ensures FindItems(line) == LineItems(line)
  {
    LinesOfLine(line);
    assert ItemsOfLines([line]) == LineItems(line) + ItemsOfLines([]);
  }

  // ---------------------------------------------------------------------------
  // re.search

  /** The leftmost position, from `from` on, where `at` matches the rest of the text. */
  function FirstMatch<T>(text: string, from: nat, at: string -> Option<T>): (r: Option<(nat, T)>)
    requires from <= |text|
    decreases |text| - from
    ensures r.Some? ==> from <= r.value.0 <= |text| && at(text[r.value.0..]) == Some(r.value.1)
    ensures r.Some? ==> forall j :: from <= j < r.value.0 ==> at(text[j..]).None?
    ensures r.None? ==> forall j :: from <= j <= |text| ==> at(text[j..]).None?
  {
    match at(text[from..])
    case Some(v) => Some((from, v))
    case None => if from == |text| then None else FirstMatch(text, from + 1, at)
  }

  /** Python's `re.search`: the match found at the leftmost position where the pattern matches. */
  function Search<T>(text: string, at: string -> Option<T>): (r: Option<T>)
    ensures r.Some? <==> FirstMatch(text, 0, at).Some?
    ensures r.Some? ==> r == at(text[FirstMatch(text, 0, at).value.0..])
  {
    match FirstMatch(text, 0, at)
    case Some((_, v)) => Some(v)
    case None => None
  }

  /** The pattern matches nowhere in the text. */
  ghost predicate NoMatch<T>(text: string, at: string -> Option<T>)
  {
    forall j :: 0 <= j <= |text| ==> at(text[j..]).None?
  }

  /**
   * `re.search` gives `None` exactly when the pattern matches at no position.
   * Stated apart from `SearchFinds` so that callers needing only this half do
   * not carry that lemma's existential into their own proofs.
   */
  lemma SearchNone<T>(text: string, at: string -> Option<T>)
    ensures Search(text, at).None? <==> NoMatch(text, at)
  {
    var r := FirstMatch(text, 0, at);
    if r.Some? {
      assert at(text[r.value.0..]).Some?;
    }
  }

  /** `re.search` fails exactly when nothing matches, and otherwise returns the leftmost match. */
  lemma SearchFinds<T>(text: string, at: string -> Option<T>)
    ensures Search(text, at).None? <==> NoMatch(text, at)
    ensures Search(text, at).Some? ==>
      exists j :: 0 <= j <= |text| && at(text[j..]) == Search(text, at) && forall i :: 0 <= i < j ==> at(text[i..]).None?
  {
    SearchNone(text, at);
    var r := FirstMatch(text, 0, at);
    if r.Some? {
      assert at(text[r.value.0..]) == Search(text, at);
    }
  }

  /** A search returns the match at a position where the pattern matches and no earlier position does. */
  lemma SearchAt<T>(text: string, at: string -> Option<T>, j: nat)
    requires j <= |text| && at(text[j..]).Some?
    requires forall i :: 0 <= i < j ==> at(text[i..]).None?
    ensures Search(text, at) == at(text[j..])
  {
    var r := FirstMatch(text, 0, at);
    assert r.Some?;
    assert r.value.0 == j;
  }

  /** A prefix where the pattern matches nowhere can be skipped: the search finds what it finds in the rest. */
  lemma SearchPast<T>(a: string, b: string, at: string -> Option<T>)
    requires forall i :: 0 <= i < |a| ==> at((a + b)[i..]).None?
    ensures Search(a + b, at) == Search(b, at)
  {
    match FirstMatch(b, 0, at)
    case Some((j, v)) =>
      assert (a + b)[|a| + j..] == b[j..];
      forall i | |a| <= i < |a| + j ensures at((a + b)[i..]).None? {
        assert (a + b)[i..] == b[i - |a|..];
      }
      SearchAt(a + b, at, |a| + j);
    case None =>
      forall j | |a| <= j <= |a + b| ensures at((a + b)[j..]).None? {
        assert (a + b)[j..] == b[j - |a|..];
      }
      var r := FirstMatch(a + b, 0, at);
      if r.Some? {
        assert false;
      }
  }

  // ---------------------------------------------------------------------------
  // Delivery date\s([\w\d ]+)

  /** `[\w\d ]`, with `\w` restricted to ASCII: a letter, a digit, an underscore or a space. */
  predicate IsDateChar(c: char)
  {
    ('a' <= c <= 'z') || ('A' <= c <= 'Z') || IsDigit(c) || c == '_' || c == ' '
  }

  /** How much greedy `[\w\d ]+` takes at the start of `s`: the whole run of date characters. */
  function DateRunLen(s: string): (n: nat)
    ensures n <= |s|
    ensures forall i :: 0 <= i < n ==> IsDateChar(s[i])
    ensures n < |s| ==> !IsDateChar(s[n])
  {
    if s == [] || !IsDateChar(s[0]) then 0 else 1 + DateRunLen(s[1..])
  }

  /** `Delivery date\s([\w\d ]+)` tried at the start of `s`, giving the captured date text. */
  function DeliveryDateAt(s: string): (r: Option<string>)
    ensures r.Some? <==> 15 <= |s| && s[..13] == "Delivery date" && IsSpace(s[13]) && IsDateChar(s[14])
    ensures r.Some? ==> && r.value != []
                        && 14 + |r.value| <= |s|
                        && s[14..14 + |r.value|] == r.value
                        && (forall i :: 0 <= i < |r.value| ==> IsDateChar(r.value[i]))
                        && (14 + |r.value| < |s| ==> !IsDateChar(s[14 + |r.value|]))
  {
    if 14 <= |s| && s[..13] == "Delivery date" && IsSpace(s[13]) && DateRunLen(s[14..]) > 0
    then Some(s[14..14 + DateRunLen(s[14..])])
    else None
  }

  // ---------------------------------------------------------------------------
  // Delivery\s.(\d\d?\.\d\d)

  /** `Delivery\s.(\d\d?\.\d\d)` tried at the start of `s`, giving the captured price text. */
  function DeliveryCostAt(s: string): (r: Option<string>)
    ensures r.Some? <==> 10 <= |s| && s[..8] == "Delivery" && IsSpace(s[8]) && s[9] != '\n' && StartsWithPrice(s[10..])
    ensures r.Some? ==> IsPriceText(r.value) && 10 + |r.value| <= |s| && s[10..10 + |r.value|] == r.value
  {
    if 10 <= |s| && s[..8] == "Delivery" && IsSpace(s[8]) && s[9] != '\n' && PriceLen(s[10..]) > 0
    then
      assert s[10..][..PriceLen(s[10..])] == s[10..10 + PriceLen(s[10..])];
      Some(s[10..10 + PriceLen(s[10..])])
    else None
  }

  // ---------------------------------------------------------------------------
  // Voucher Saving\s.(-?\d\d?.\d\d)

  /** `\d\d?.\d\d`: the dot of the voucher pattern is not escaped, so it stands for any character but a newline. */
  predicate IsAmountText(t: string)
  {
    || (|t| == 4 && IsDigit(t[0]) && t[1] != '\n' && IsDigit(t[2]) && IsDigit(t[3]))
    || (|t| == 5 && IsDigit(t[0]) && IsDigit(t[1]) && t[2] != '\n' && IsDigit(t[3]) && IsDigit(t[4]))
  }

  /** How much `\d\d?.\d\d` takes at the start of `s`: five characters when it can, otherwise four, otherwise no match. */
  function AmountLen(s: string): (n: nat)
    ensures n <= |s|
    ensures n > 0 ==> IsAmountText(s[..n])
    ensures n == 0 ==> forall k :: 0 <= k <= |s| ==> !IsAmountText(s[..k])
    ensures forall k :: 0 <= k <= |s| && IsAmountText(s[..k]) ==> k <= n
  {
    if 5 <= |s| && IsAmountText(s[..5]) then 5
    else if 4 <= |s| && IsAmountText(s[..4]) then 4
    else 0
  }

  predicate IsVoucherText(t: string)
  {
    IsAmountText(t) || (1 <= |t| && t[0] == '-' && IsAmountText(t[1..]))
  }

  /** How much `-?\d\d?.\d\d` takes at the start of `s`: the longest prefix that is a voucher text, a leading minus sign included. */
  function VoucherLen(s: string): (n: nat)
    ensures n <= |s|
    ensures n > 0 ==> IsVoucherText(s[..n])
    ensures n == 0 ==> forall k :: 0 <= k <= |s| ==> !IsVoucherText(s[..k])
    ensures forall k :: 0 <= k <= |s| && IsVoucherText(s[..k]) ==> k <= n
  {
    if 1 <= |s| && s[0] == '-' then
      var a := AmountLen(s[1..]);
      assert forall k :: 1 <= k <= |s| ==> s[..k][1..] == s[1..][..k - 1];
      assert a > 0 ==> s[..1 + a][1..] == s[1..][..a];
      if a > 0 then 1 + a else 0
    else
      assert forall k :: 1 <= k <= |s| ==> s[..k][0] == s[0];
      AmountLen(s)
  }

  /** `Voucher Saving\s.(-?\d\d?.\d\d)` tried at the start of `s`, giving the captured text. */
  function VoucherAt(s: string): (r: Option<string>)
    ensures r.Some? ==> IsVoucherText(r.value) && 16 + |r.value| <= |s| && s[..14] == "Voucher Saving" && s[16..16 + |r.value|] == r.value
    ensures r.Some? ==> forall k :: 0 <= k <= |s| - 16 && IsVoucherText(s[16..][..k]) ==> k <= |r.value|
    ensures r.None? <==> !(16 <= |s| && s[..14] == "Voucher Saving" && IsSpace(s[14]) && s[15] != '\n' && VoucherLen(s[16..]) > 0)
  {
    if 16 <= |s| && s[..14] == "Voucher Saving" && IsSpace(s[14]) && s[15] != '\n' && VoucherLen(s[16..]) > 0
    then
      var n := VoucherLen(s[16..]);
      assert s[16..][..n] == s[16..16 + n];
      Some(s[16..16 + n])
    else None
  }

  /** The character the unescaped dot of the voucher pattern matched. */
  function VoucherSeparator(t: string): char
    requires IsVoucherText(t)
  {
    t[|t| - 3]
  }

  /** An amount text with its separator, the third character from the end, taken out: its digits. */
  function Unseparated(t: string): (u: string)
    requires IsAmountText(t)
    ensures AllDigits(u)
  {
    AllDigitsAppend(t[..|t| - 3], t[|t| - 2..]);
    t[..|t| - 3] + t[|t| - 2..]
  }

  /** An amount text whose separator is a digit is all digits. */
  lemma AmountDigits(t: string)
    requires IsAmountText(t) && IsDigit(t[|t| - 3])
    ensures AllDigits(t)
  {
  }

  /**
   * Python's `float()` of an unsigned voucher text. It accepts the separator `.`
   * (a decimal amount), a digit (the text is a whole number), `e` or `E` (an
   * exponent) and `_` (a digit group separator); any other separator makes
   * `float()` raise `ValueError`, here `None`.
   */
  function AmountNumber(t: string): (r: Option<real>)
    requires IsAmountText(t)
    ensures r.Some? <==> t[|t| - 3] in {'.', 'e', 'E', '_'} || IsDigit(t[|t| - 3])
    ensures r.Some? && t[|t| - 3] == '.' ==> r.value * 100.0 == DigitsValue(Unseparated(t)) as real
    ensures r.Some? && t[|t| - 3] == '.' ==> 0.0 <= r.value <= 99.99 && TwoDecimals(r.value) && TwoDecimals(-r.value)
    ensures r.Some? && IsDigit(t[|t| - 3]) ==> AllDigits(t) && r.value == DigitsValue(t) as real
    ensures r.Some? && t[|t| - 3] == '_' ==> r.value == DigitsValue(Unseparated(t)) as real
    ensures r.Some? && t[|t| - 3] in {'e', 'E'} ==>
      r.value == (DigitsValue(t[..|t| - 3]) * Pow10(DigitsValue(t[|t| - 2..]))) as real
  {
    var whole := t[..|t| - 3];
    var sep := t[|t| - 3];
    var frac := t[|t| - 2..];
    if sep == '.' then Some(DecimalValue(whole, frac))
    else if IsDigit(sep) then
      AmountDigits(t);
      Some(DigitsValue(t) as real)
    else if sep == 'e' || sep == 'E' then Some((DigitsValue(whole) * Pow10(DigitsValue(frac))) as real)
    else if sep == '_' then Some(DigitsValue(Unseparated(t)) as real)
    else None
  }

  /** A voucher text without its minus sign, if it has one. */
  function Unsigned(t: string): (u: string)
    requires IsVoucherText(t)
    ensures IsAmountText(u) && u[|u| - 3] == VoucherSeparator(t)
  {
    if t[0] == '-' then t[1..] else t
  }

  /** `float()` of a voucher text: a leading minus sign negates the amount read from the rest. */
  function VoucherNumber(t: string): (r: Option<real>)
    requires IsVoucherText(t)
    ensures r.Some? <==> AmountNumber(Unsigned(t)).Some?
    ensures r.Some? <==> VoucherSeparator(t) in {'.', 'e', 'E', '_'} || IsDigit(VoucherSeparator(t))
    ensures r.Some? ==> r.value == (if t[0] == '-' then -1.0 else 1.0) * AmountNumber(Unsigned(t)).value
    ensures r.Some? && VoucherSeparator(t) == '.' ==>
      r.value * 100.0 == (if t[0] == '-' then -1.0 else 1.0) * DigitsValue(Unseparated(Unsigned(t))) as real
    ensures r.Some? && VoucherSeparator(t) == '.' ==> -99.99 <= r.value <= 99.99 && TwoDecimals(r.value)
  {
    var u := Unsigned(t);
    match AmountNumber(u)
    case None => None
    case Some(v) =>
      if t[0] == '-' then
        assert -v * 100.0 == -(v * 100.0);
        Some(-v)
      else Some(v)
  }

  // ---------------------------------------------------------------------------
  // Assembly and reconciliation

  function ToPurchase(m: ItemMatch): (p: Purchase)
    requires WellFormed(m)
    ensures p.description == m.description
    ensures p.quantity <= 99
    ensures 0.0 <= p.price <= 99.99 && TwoDecimals(p.price)
  {
    assert Pow10(2) == 100;
    Purchase(m.description, PriceValue(m.price), DigitsValue(m.quantity))
  }

  function Prices(ps: seq<Purchase>): (r: seq<real>)
    ensures |r| == |ps| && forall i :: 0 <= i < |ps| ==> r[i] == ps[i].price
  {
    seq(|ps|, i requires 0 <= i < |ps| => ps[i].price)
  }

  /** The purchase list: the matched items in text order, the delivery entry, and the voucher entry if the voucher is not zero. */
  function AssemblePurchases(items: seq<ItemMatch>, delivery: real, voucher: real): (r: seq<Purchase>)
    requires forall i :: 0 <= i < |items| ==> WellFormed(items[i])
    ensures |r| == |items| + (if voucher != 0.0 then 2 else 1)
    ensures forall i :: 0 <= i < |items| ==> r[i] == ToPurchase(items[i])
    ensures r[|items|] == Purchase("Delivery costs", delivery, 1)
    ensures voucher != 0.0 ==> r[|items| + 1] == Purchase("Voucher savings", voucher, 1)
  {
    seq(|items|, i requires 0 <= i < |items| => ToPurchase(items[i]))
      + [Purchase("Delivery costs", delivery, 1)]
      + (if voucher != 0.0 then [Purchase("Voucher savings", voucher, 1)] else [])
  }

  /** `total = subtotal + voucher + delivery_cost`, the subtotal running over every purchase, synthetic ones included. */
  function Total(purchases: seq<Purchase>, voucher: real, delivery: real): (r: real)
    ensures r == Sum(Prices(purchases) + [voucher, delivery])
  {
    SumConcat(Prices(purchases), [voucher, delivery]);
    Sum(Prices(purchases)) + voucher + delivery
  }

  function ParseReceipt(text: string): (r: Result<(OrderInfo, seq<Purchase>), ParseError>)
    ensures r.Success? ==> Search(text, DeliveryDateAt) == Some(r.value.0.deliveryDate)
  {
    var items := FindItems(text);
    match Search(text, DeliveryDateAt)
    case None => Failure(MissingDeliveryDate)
    case Some(date) =>
      match Search(text, DeliveryCostAt)
      case None => Failure(MissingDeliveryCost)
      case Some(costText) =>
        match Search(text, VoucherAt)
        case None => Failure(MissingVoucher)
        case Some(voucherText) =>
          SearchFinds(text, DeliveryCostAt);
          SearchFinds(text, VoucherAt);
          match VoucherNumber(voucherText)
          case None => Failure(VoucherNotANumber(voucherText))
          case Some(voucher) =>
            var delivery := PriceValue(costText);
            var purchases := AssemblePurchases(items, delivery, voucher);
            Success((OrderInfo(date, Total(purchases, voucher, delivery)), purchases))
  }

  // ---------------------------------------------------------------------------
  // What parse_receipt promises

  /** All or nothing: each missing field gives its own error, checked in the order date, delivery cost, voucher. */
  lemma ParseReceiptErrors(text: string)
    ensures ParseReceipt(text) == Failure(MissingDeliveryDate) <==> NoMatch(text, DeliveryDateAt)
    ensures ParseReceipt(text) == Failure(MissingDeliveryCost) <==>
      !NoMatch(text, DeliveryDateAt) && NoMatch(text, DeliveryCostAt)
    ensures ParseReceipt(text) == Failure(MissingVoucher) <==>
      !NoMatch(text, DeliveryDateAt) && !NoMatch(text, DeliveryCostAt) && NoMatch(text, VoucherAt)
  {
    ParseReceiptSearchErrors(text);
    SearchNone(text, DeliveryDateAt);
    SearchNone(text, DeliveryCostAt);
    SearchNone(text, VoucherAt);
  }

  /** The missing-field errors in terms of the three searches, tried in order. */
  lemma ParseReceiptSearchErrors(text: string)
    ensures ParseReceipt(text) == Failure(MissingDeliveryDate) <==> Search(text, DeliveryDateAt).None?
    ensures ParseReceipt(text) == Failure(MissingDeliveryCost) <==>
      Search(text, DeliveryDateAt).Some? && Search(text, DeliveryCostAt).None?
    ensures ParseReceipt(text) == Failure(MissingVoucher) <==>
      Search(text, DeliveryDateAt).Some? && Search(text, DeliveryCostAt).Some? && Search(text, VoucherAt).None?
  {
  }

  /** The one error that is not a missing field: the first voucher match has a separator `float()` refuses. */
  lemma ParseReceiptVoucherError(text: string)
    ensures ParseReceipt(text).Failure? && ParseReceipt(text).error.VoucherNotANumber? ==>
      var t := ParseReceipt(text).error.token;
      && Search(text, VoucherAt) == Some(t)
      && IsVoucherText(t)
      && VoucherSeparator(t) !in {'.', 'e', 'E', '_'} && !IsDigit(VoucherSeparator(t))
  {
    SearchFinds(text, VoucherAt);
  }

  /** The assembled list starts with the converted items, in order, and has at least one more entry. */
  lemma AssembledItems(items: seq<ItemMatch>, delivery: real, voucher: real)
    requires forall i :: 0 <= i < |items| ==> WellFormed(items[i])
    ensures var ps := AssemblePurchases(items, delivery, voucher);
      && |items| < |ps|
      && forall i :: 0 <= i < |items| ==>
        && ps[i].description == items[i].description
        && ps[i].description != [] && NoNewline(ps[i].description)
        && ps[i].quantity == DigitsValue(items[i].quantity) <= 99
        && ps[i].price == PriceValue(items[i].price)
        && 0.0 <= ps[i].price <= 99.99 && TwoDecimals(ps[i].price)
  {
    var ps := AssemblePurchases(items, delivery, voucher);
    forall i | 0 <= i < |items|
      ensures ps[i] == ToPurchase(items[i])
    {
    }
  }

  /** The matched item lines come first, in text order, each with its captured description and a bounded, two-decimal price. */
  lemma ParseReceiptItems(text: string)
    requires ParseReceipt(text).Success?
    ensures var ps := ParseReceipt(text).value.1;
      var items := FindItems(text);
      && |items| < |ps|
      && forall i :: 0 <= i < |items| ==>
        && ps[i].description == items[i].description
        && ps[i].description != [] && NoNewline(ps[i].description)
        && ps[i].quantity == DigitsValue(items[i].quantity) <= 99
        && ps[i].price == PriceValue(items[i].price)
        && 0.0 <= ps[i].price <= 99.99 && TwoDecimals(ps[i].price)
  {
    ParseReceiptValue(text);
    var items := FindItems(text);
    var delivery := PriceValue(Search(text, DeliveryCostAt).value);
    var voucher := VoucherNumber(Search(text, VoucherAt).value).value;
    AssembledItems(items, delivery, voucher);
  }

  /**
   * After the items: one delivery entry priced at the first delivery-cost match, then a
   * voucher entry priced at the first voucher match, present exactly when that voucher is not zero.
   */
  lemma ParseReceiptExtras(text: string)
    requires ParseReceipt(text).Success?
    ensures Search(text, DeliveryCostAt).Some? && IsPriceText(Search(text, DeliveryCostAt).value)
    ensures Search(text, VoucherAt).Some? && IsVoucherText(Search(text, VoucherAt).value)
    ensures VoucherNumber(Search(text, VoucherAt).value).Some?
    ensures var ps := ParseReceipt(text).value.1;
      var n := |FindItems(text)|;
      var delivery := PriceValue(Search(text, DeliveryCostAt).value);
      var voucher := VoucherNumber(Search(text, VoucherAt).value).value;
      && (|ps| == n + 1 || |ps| == n + 2)
      && ps[n] == Purchase("Delivery costs", delivery, 1)
      && (|ps| == n + 2 <==> voucher != 0.0)
      && (|ps| == n + 2 ==> ps[n + 1] == Purchase("Voucher savings", voucher, 1))
  {
    ParseReceiptValue(text);
    var items := FindItems(text);
    var delivery := PriceValue(Search(text, DeliveryCostAt).value);
    var voucher := VoucherNumber(Search(text, VoucherAt).value).value;
    var ps := AssemblePurchases(items, delivery, voucher);
    assert ps[|items|] == Purchase("Delivery costs", delivery, 1);
    assert |ps| == |items| + 2 <==> voucher != 0.0;
    assert |ps| == |items| + 2 ==> ps[|items| + 1] == Purchase("Voucher savings", voucher, 1);
  }

  /** The items assembled, followed by the delivery entry and the voucher entry. */
  lemma PricesOfAssembly(items: seq<ItemMatch>, delivery: real, voucher: real)
    requires forall i :: 0 <= i < |items| ==> WellFormed(items[i])
    ensures var ps := AssemblePurchases(items, delivery, voucher);
      Prices(ps) == Prices(ps[..|items|]) + [delivery] + (if voucher != 0.0 then [voucher] else [])
  {
  }

  /** The reconciled total counts the delivery cost and the voucher twice: once as entries of the list, once as separate terms. */
  lemma TotalCountsExtrasTwice(items: seq<ItemMatch>, delivery: real, voucher: real)
    requires forall i :: 0 <= i < |items| ==> WellFormed(items[i])
    ensures var ps := AssemblePurchases(items, delivery, voucher);
      Total(ps, voucher, delivery) == Sum(Prices(ps[..|items|])) + 2.0 * delivery + 2.0 * voucher
  {
    var ps := AssemblePurchases(items, delivery, voucher);
    var extra := if voucher != 0.0 then [voucher] else [];
    PricesOfAssembly(items, delivery, voucher);
    SumConcat(Prices(ps[..|items|]) + [delivery], extra);
    SumConcat(Prices(ps[..|items|]), [delivery]);
    assert Sum([delivery]) == delivery;
    assert Sum(extra) == if voucher != 0.0 then voucher else 0.0;
  }

  /** A successful parse is built from the first date, delivery-cost and voucher matches. */
  lemma ParseReceiptValue(text: string)
    requires ParseReceipt(text).Success?
    ensures Search(text, DeliveryDateAt).Some? && Search(text, DeliveryCostAt).Some? && Search(text, VoucherAt).Some?
    ensures IsPriceText(Search(text, DeliveryCostAt).value) && IsVoucherText(Search(text, VoucherAt).value)
    ensures VoucherNumber(Search(text, VoucherAt).value).Some?
    ensures var delivery := PriceValue(Search(text, DeliveryCostAt).value);
      var voucher := VoucherNumber(Search(text, VoucherAt).value).value;
      var ps := AssemblePurchases(FindItems(text), delivery, voucher);
      ParseReceipt(text).value == (OrderInfo(Search(text, DeliveryDateAt).value, Total(ps, voucher, delivery)), ps)
  {
    SearchFinds(text, DeliveryCostAt);
    SearchFinds(text, VoucherAt);
  }

  /** When all three searches succeed and the voucher text is a number, the receipt is read from what they found. */
  lemma ParseReceiptFound(text: string, date: string, costText: string, voucherText: string, voucher: real)
    requires Search(text, DeliveryDateAt) == Some(date)
    requires Search(text, DeliveryCostAt) == Some(costText) && IsPriceText(costText)
    requires Search(text, VoucherAt) == Some(voucherText) && IsVoucherText(voucherText)
    requires VoucherNumber(voucherText) == Some(voucher)
    ensures var ps := AssemblePurchases(FindItems(text), PriceValue(costText), voucher);
      ParseReceipt(text) == Success((OrderInfo(date, Total(ps, voucher, PriceValue(costText))), ps))
  {
  }

  /** The total of a parsed receipt: items, plus twice the delivery entry, plus twice the voucher entry when there is one. */
  lemma ParseReceiptTotal(text: string)
    requires ParseReceipt(text).Success?
    ensures |FindItems(text)| < |ParseReceipt(text).value.1|
    ensures var ps := ParseReceipt(text).value.1;
      var n := |FindItems(text)|;
      ParseReceipt(text).value.0.total
        == Sum(Prices(ps[..n])) + 2.0 * ps[n].price + (if |ps| == n + 2 then 2.0 * ps[n + 1].price else 0.0)
  {
    ParseReceiptValue(text);
    var items := FindItems(text);
    var delivery := PriceValue(Search(text, DeliveryCostAt).value);
    var voucher := VoucherNumber(Search(text, VoucherAt).value).value;
    var ps := AssemblePurchases(items, delivery, voucher);
    TotalCountsExtrasTwice(items, delivery, voucher);
    assert ps[|items|].price == delivery;
    assert |ps| == |items| + 2 <==> voucher != 0.0;
    assert |ps| == |items| + 2 ==> ps[|items| + 1].price == voucher;
  }

  // ---------------------------------------------------------------------------
  // Worked lines

  /** On `2 Bananas £1.00` the lazy description, begun after the quantity, first finds ` £` and a price at index 9. */
  lemma ExampleDescriptionEnd()
    ensures NoNewline(ExampleLine1[2..3])
    ensures DescEnd(ExampleLine1, 2, 3) == Some(9)
  {
    var line := ExampleLine1;
    assert NoNewline(line);
    forall e | 3 <= e <= 9 ensures NoNewline(line[2..e]) {
      NoNewlineSlice(line, 2, e);
    }
    assert line[11..][..4] == "1.00";
    assert PriceMarkAt(line, 9);
    assert DescEnd(line, 2, 9) == Some(9);
    assert DescEnd(line, 2, 8) == Some(9);
    assert DescEnd(line, 2, 7) == Some(9);
    assert DescEnd(line, 2, 6) == Some(9);
    assert DescEnd(line, 2, 5) == Some(9);
    assert DescEnd(line, 2, 4) == Some(9);
  }

  /** A typical item line gives its quantity, description and price. */
  lemma ExampleItemLine()
    ensures MatchItem(ExampleLine1) == Some(ItemMatch("2", "Bananas", "1.00"))
  {
    var line := ExampleLine1;
    assert QuantityLen(line) == 1;
    ExampleDescriptionEnd();
    assert line[11..][..4] == "1.00";
    assert PriceLen(line[11..]) == 4;
    ExampleLine1Pieces();
  }

  lemma ExampleLine1Pieces()
    ensures ExampleLine1[..1] == "2" && ExampleLine1[2..9] == "Bananas" && ExampleLine1[11..15] == "1.00"
  {
    var l := ExampleLine1;
    assert l[..1] == "2";
    forall i | 0 <= i < 7 ensures l[2..9][i] == "Bananas"[i] {
    }
    forall i | 0 <= i < 4 ensures l[11..15][i] == "1.00"[i] {
    }
  }

  /** A quantity of 0 is accepted. */
  lemma ExampleZeroQuantity()
    ensures MatchItem("0 X \U{A3}1.00") == Some(ItemMatch("0", "X", "1.00"))
  {
    var line := "0 X \U{A3}1.00";
    assert QuantityLen(line) == 1;
    assert line[5..][..4] == "1.00";
    assert PriceLen(line[5..]) == 4;
    assert DescEnd(line, 2, 3) == Some(3);
    assert line[..1] == "0" && line[2..3] == "X" && line[5..9] == "1.00";
  }

  /** The description stops at the first ` £` followed by a price; trailing text is allowed. */
  lemma ExampleLazyDescription()
    ensures MatchItem("1 A \U{A3}1.00 \U{A3}2.00") == Some(ItemMatch("1", "A", "1.00"))
  {
    var line := "1 A \U{A3}1.00 \U{A3}2.00";
    assert QuantityLen(line) == 1;
    assert line[5..][..4] == "1.00";
    assert line[5..][..5] == "1.00 ";
    assert PriceLen(line[5..]) == 4;
    assert DescEnd(line, 2, 3) == Some(3);
    assert line[..1] == "1" && line[2..3] == "A" && line[5..9] == "1.00";
  }

  /** With the dot unescaped, the voucher pattern takes `1234` after `Voucher Saving £`. */
  lemma ExampleVoucherSeparator()
    ensures VoucherAt("Voucher Saving \U{A3}1234") == Some("1234")
  {
    var s := "Voucher Saving \U{A3}1234";
    assert s[..14] == "Voucher Saving";
    assert s[16..] == "1234";
    assert "1234"[..4] == "1234" && IsAmountText("1234");
    assert AmountLen("1234") == 4;
    assert VoucherLen(s[16..]) == 4;
    assert s[16..20] == "1234";
  }

  /** `float()` reads a voucher text with a digit as separator as a whole number of pounds, and refuses one with a letter other than `e`. */
  lemma ExampleVoucherWhole()
    ensures VoucherNumber("1234") == Some(1234.0)
    ensures VoucherNumber("1x23") == None
  {
    assert "1234"[..1] == "1" && "1234"[1] == '2' && "1234"[2..] == "34";
    assert "1" + ['2'] + "34" == "1234";
    assert DigitsValue("1234") == 1234 by {
      assert "1234"[..3] == "123";
      assert DigitsValue("123"[..2]) == 12 by {
        assert "123"[..2] == "12";
        assert "12"[..1] == "1";
      }
    }
    assert AmountNumber("1234") == Some(1234.0);
  }

  /** A negative voucher with the usual point: `-1.50` is -1.5. */
  lemma ExampleVoucherNegative()
    ensures VoucherNumber("-1.50") == Some(-1.5)
  {
    assert Unsigned("-1.50") == "1.50";
    assert Unseparated("1.50") == "150";
    assert DigitsValue("1") == 1;
    assert DigitsValue("15") == 15 by { assert "15"[..1] == "1"; }
    assert DigitsValue("150") == 150 by { assert "150"[..2] == "15"; }
  }

  // ---------------------------------------------------------------------------
  // A worked receipt

  /** A pattern whose every match begins with `c` matches at no position of a prefix without `c`. */
  lemma NoneBefore<T>(a: string, b: string, at: string -> Option<T>, c: char)
    requires c !in a
    requires forall s :: at(s).Some? ==> s != [] && s[0] == c
    ensures forall i :: 0 <= i < |a| ==> at((a + b)[i..]).None?
  {
    forall i | 0 <= i < |a| ensures at((a + b)[i..]).None? {
      assert (a + b)[i..][0] == a[i];
      assert a[i] in a;
    }
  }

  lemma DeliveryStartsWithD()
    ensures forall s :: DeliveryDateAt(s).Some? ==> s != [] && s[0] == 'D'
    ensures forall s :: DeliveryCostAt(s).Some? ==> s != [] && s[0] == 'D'
  {
    forall s | DeliveryDateAt(s).Some? ensures s != [] && s[0] == 'D' {
      assert s[..13][0] == s[0];
    }
    forall s | DeliveryCostAt(s).Some? ensures s != [] && s[0] == 'D' {
      assert s[..8][0] == s[0];
    }
  }

  lemma VoucherStartsWithV()
    ensures forall s :: VoucherAt(s).Some? ==> s != [] && s[0] == 'V'
  {
    forall s | VoucherAt(s).Some? ensures s != [] && s[0] == 'V' {
      assert s[..14][0] == s[0];
    }
  }

  const ExampleLine1: string := "2 Bananas \U{A3}1.00"
  const ExampleLine2: string := "1 Bread \U{A3}2.00"
  const ExampleDateLine: string := "Delivery date Monday 12 March"
  const ExampleCostLine: string := "Delivery \U{A3}3.00"
  const ExampleVoucherLine: string := "Voucher Saving \U{A3}-1.00"

  /** Two item lines, the delivery date, the delivery cost and a voucher of -1.00. */
  const ExampleReceiptText: string := ExampleLine1 + "\n" + (ExampleLine2 + "\n" + ExampleFromDate())

  /** The receipt from the delivery-cost line on. */
  function ExampleFromCost(): string
  {
    ExampleCostLine + "\n" + ExampleVoucherLine
  }

  /** The receipt from the date line on. */
  function ExampleFromDate(): string
  {
    ExampleDateLine + "\n" + ExampleFromCost()
  }

  /** The two item lines and their newlines. */
  function ExampleItemLines(): string
  {
    ExampleLine1 + "\n" + (ExampleLine2 + "\n")
  }

  lemma ExampleTextSplit()
    ensures ExampleReceiptText == ExampleItemLines() + ExampleFromDate()
    ensures 'D' !in ExampleItemLines() && 'V' !in ExampleItemLines()
  {
    ConcatAssoc(ExampleLine1 + "\n", ExampleLine2 + "\n", ExampleFromDate());
  }

  /** The date pattern on the date line, with the rest of the receipt after it, captures `Monday 12 March`. */
  lemma ExampleDateLineMatch(rest: string)
    requires rest != [] && rest[0] == '\n'
    ensures DeliveryDateAt(ExampleDateLine + rest) == Some("Monday 12 March")
  {
    var s := ExampleDateLine + rest;
    assert s[..13] == "Delivery date" && s[13] == ' ';
    forall i | 0 <= i < 16 ensures s[14..][..16][i] == "Monday 12 March\n"[i] { }
    ExampleDateRun(s[14..]);
    forall i | 0 <= i < 15 ensures s[14..29][i] == "Monday 12 March"[i] { }
  }

  /** Greedy `[\w\d ]+` on `Monday 12 March` and a newline takes the fifteen characters, spaces included. */
  lemma ExampleDateRun(m: string)
    requires |m| >= 16 && m[..16] == "Monday 12 March\n"
    ensures DateRunLen(m) == 15
  {
    forall i | 0 <= i < 16 ensures m[i] == "Monday 12 March\n"[i] {
      assert m[i] == m[..16][i];
    }
    var n := DateRunLen(m);
    if n < 15 {
      assert IsDateChar(m[n]);
    }
    assert !IsDateChar(m[15]);
  }

  /** The date search finds `Monday 12 March`, on the third line. */
  lemma ExampleDateSearch()
    ensures Search(ExampleReceiptText, DeliveryDateAt) == Some("Monday 12 March")
  {
    ExampleTextSplit();
    DeliveryStartsWithD();
    NoneBefore(ExampleItemLines(), ExampleFromDate(), DeliveryDateAt, 'D');
    SearchPast(ExampleItemLines(), ExampleFromDate(), DeliveryDateAt);
    ConcatAssoc(ExampleDateLine, "\n", ExampleFromCost());
    ExampleDateLineMatch("\n" + ExampleFromCost());
    SearchAt(ExampleFromDate(), DeliveryDateAt, 0);
  }

  /** The delivery-cost pattern does not match at the start of the date line: `ate` is no price. */
  lemma ExampleDateLineNoCost(rest: string)
    ensures DeliveryCostAt(ExampleDateLine + rest).None?
  {
    var s := ExampleDateLine + rest;
    assert s[10..][0] == 'a';
  }

  /** The delivery-cost pattern on the cost line captures `3.00`. */
  lemma ExampleCostLineMatch(rest: string)
    requires rest != [] && rest[0] == '\n'
    ensures DeliveryCostAt(ExampleCostLine + rest) == Some("3.00")
  {
    var s := ExampleCostLine + rest;
    assert s[..8] == "Delivery" && s[8] == ' ' && s[9] == '\U{A3}';
    assert s[10..][..5] == "3.00\n";
    assert s[10..][..4] == "3.00";
    assert PriceLen(s[10..]) == 4;
    assert s[10..14] == "3.00";
  }

  lemma ExampleDateLineParts()
    ensures ExampleDateLine + "\n" == ExampleDateLine[..1] + (ExampleDateLine[1..] + "\n")
    ensures 'D' !in ExampleDateLine[1..] + "\n"
  {
  }

  /** Nothing on the date line matches the delivery-cost pattern. */
  lemma ExampleDateLineSkip(r: string)
    ensures Search(ExampleDateLine + "\n" + r, DeliveryCostAt) == Search(r, DeliveryCostAt)
  {
    var d, q := ExampleDateLine[..1], ExampleDateLine[1..] + "\n";
    ExampleDateLineParts();
    ConcatAssoc(d, q, r);
    ConcatAssoc(ExampleDateLine, "\n", r);
    ExampleDateLineNoCost("\n" + r);
    SearchPast(d, q + r, DeliveryCostAt);
    DeliveryStartsWithD();
    NoneBefore(q, r, DeliveryCostAt, 'D');
    SearchPast(q, r, DeliveryCostAt);
  }

  /** The delivery-cost search finds `3.00`, on the fourth line. */
  lemma ExampleCostSearch()
    ensures Search(ExampleReceiptText, DeliveryCostAt) == Some("3.00")
  {
    ExampleTextSplit();
    DeliveryStartsWithD();
    NoneBefore(ExampleItemLines(), ExampleFromDate(), DeliveryCostAt, 'D');
    SearchPast(ExampleItemLines(), ExampleFromDate(), DeliveryCostAt);
    ExampleDateLineSkip(ExampleFromCost());
    ConcatAssoc(ExampleCostLine, "\n", ExampleVoucherLine);
    ExampleCostLineMatch("\n" + ExampleVoucherLine);
    SearchAt(ExampleFromCost(), DeliveryCostAt, 0);
  }

  /** The voucher pattern on the voucher line captures `-1.00`: the minus sign and four characters of amount. */
  lemma ExampleVoucherLineMatch()
    ensures VoucherAt(ExampleVoucherLine) == Some("-1.00")
  {
    var s := ExampleVoucherLine;
    assert s[..14] == "Voucher Saving" && s[14] == ' ' && s[15] == '\U{A3}';
    assert s[16..] == "-1.00" && s[16..][1..] == "1.00";
    assert AmountLen("1.00") == 4;
    assert VoucherLen(s[16..]) == 5;
    assert s[16..21] == "-1.00";
  }

  lemma ExampleNoVoucherBefore()
    ensures 'V' !in ExampleDateLine + "\n" && 'V' !in ExampleCostLine + "\n"
  {
  }

  /** The voucher search finds `-1.00`, on the last line. */
  lemma ExampleVoucherSearch()
    ensures Search(ExampleReceiptText, VoucherAt) == Some("-1.00")
  {
    ExampleTextSplit();
    ExampleNoVoucherBefore();
    VoucherStartsWithV();
    NoneBefore(ExampleItemLines(), ExampleFromDate(), VoucherAt, 'V');
    SearchPast(ExampleItemLines(), ExampleFromDate(), VoucherAt);
    NoneBefore(ExampleDateLine + "\n", ExampleFromCost(), VoucherAt, 'V');
    SearchPast(ExampleDateLine + "\n", ExampleFromCost(), VoucherAt);
    NoneBefore(ExampleCostLine + "\n", ExampleVoucherLine, VoucherAt, 'V');
    SearchPast(ExampleCostLine + "\n", ExampleVoucherLine, VoucherAt);
    ExampleVoucherLineMatch();
    SearchAt(ExampleVoucherLine, VoucherAt, 0);
  }

  /** `float("-1.00")` is -1.0. */
  lemma ExampleVoucherValue()
    ensures VoucherNumber("-1.00") == Some(-1.0)
  {
    assert Unsigned("-1.00") == "1.00";
    assert Unseparated("1.00") == "100";
    assert DigitsValue("1") == 1;
    assert DigitsValue("10") == 10 by { assert "10"[..1] == "1"; }
    assert DigitsValue("100") == 100 by { assert "100"[..2] == "10"; }
  }

  /** On `1 Bread £2.00` the lazy description first finds ` £` and a price at index 7. */
  lemma ExampleBreadDescriptionEnd()
    ensures NoNewline(ExampleLine2[2..3])
    ensures DescEnd(ExampleLine2, 2, 3) == Some(7)
  {
    var line := ExampleLine2;
    assert NoNewline(line);
    forall e | 3 <= e <= 7 ensures NoNewline(line[2..e]) {
      NoNewlineSlice(line, 2, e);
    }
    assert line[9..][..4] == "2.00";
    assert PriceMarkAt(line, 7);
    assert DescEnd(line, 2, 7) == Some(7);
    assert DescEnd(line, 2, 6) == Some(7);
    assert DescEnd(line, 2, 5) == Some(7);
    assert DescEnd(line, 2, 4) == Some(7);
  }

  lemma ExampleBreadLine()
    ensures MatchItem(ExampleLine2) == Some(ItemMatch("1", "Bread", "2.00"))
  {
    var line := ExampleLine2;
    assert QuantityLen(line) == 1;
    ExampleBreadDescriptionEnd();
    assert line[9..][..4] == "2.00";
    assert PriceLen(line[9..]) == 4;
    ExampleLine2Pieces();
  }

  lemma ExampleLine2Pieces()
    ensures ExampleLine2[..1] == "1" && ExampleLine2[2..7] == "Bread" && ExampleLine2[9..13] == "2.00"
  {
    var l := ExampleLine2;
    assert l[..1] == "1";
    forall i | 0 <= i < 5 ensures l[2..7][i] == "Bread"[i] {
    }
    forall i | 0 <= i < 4 ensures l[9..13][i] == "2.00"[i] {
    }
  }

  /** The date, cost and voucher lines start with a letter, so the item pattern finds nothing on them. */
  lemma ExampleOtherLines()
    ensures NoNewline(ExampleDateLine) && LineItems(ExampleDateLine) == []
    ensures NoNewline(ExampleCostLine) && LineItems(ExampleCostLine) == []
    ensures NoNewline(ExampleVoucherLine) && LineItems(ExampleVoucherLine) == []
  {
    assert QuantityLen(ExampleDateLine) == 0;
    assert QuantityLen(ExampleCostLine) == 0;
    assert QuantityLen(ExampleVoucherLine) == 0;
  }

  /** From the date line on, `findall` reports nothing. */
  lemma ExampleNoTrailingItems()
    ensures FindItems(ExampleFromDate()) == []
  {
    ExampleOtherLines();
    FindItemsLines(ExampleDateLine, ExampleFromCost());
    FindItemsLines(ExampleCostLine, ExampleVoucherLine);
    FindItemsLine(ExampleDateLine);
    FindItemsLine(ExampleCostLine);
    FindItemsLine(ExampleVoucherLine);
  }

  lemma ExampleItemLinesOneLine()
    ensures NoNewline(ExampleLine1) && NoNewline(ExampleLine2)
  {
  }

  /** A line the item pattern matches contributes its match ahead of what the following lines give. */
  lemma FindItemsFirstLine(line: string, rest: string, m: ItemMatch)
    requires NoNewline(line) && MatchItem(line) == Some(m)
    ensures FindItems(line + "\n" + rest) == [m] + FindItems(rest)
  {
    FindItemsLines(line, rest);
    FindItemsLine(line);
  }

  /** From the second item line on, `findall` reports the bread. */
  lemma ExampleBreadItems()
    ensures FindItems(ExampleLine2 + "\n" + ExampleFromDate()) == [ItemMatch("1", "Bread", "2.00")]
  {
    ExampleBreadLine();
    ExampleItemLinesOneLine();
    FindItemsFirstLine(ExampleLine2, ExampleFromDate(), ItemMatch("1", "Bread", "2.00"));
    ExampleNoTrailingItems();
  }

  /** `findall` over the receipt reports the two item lines and nothing else. */
  lemma ExampleReceiptItems()
    ensures FindItems(ExampleReceiptText) == [ItemMatch("2", "Bananas", "1.00"), ItemMatch("1", "Bread", "2.00")]
  {
    ExampleItemLine();
    ExampleItemLinesOneLine();
    FindItemsFirstLine(ExampleLine1, ExampleLine2 + "\n" + ExampleFromDate(), ItemMatch("2", "Bananas", "1.00"));
    ExampleBreadItems();
  }

  /** Bananas for two, bread for one, delivery and voucher shared. */
  const ExamplePurchases: seq<Purchase> :=
    [Purchase("Bananas", 1.0, 2), Purchase("Bread", 2.0, 1),
     Purchase("Delivery costs", 3.0, 1), Purchase("Voucher savings", -1.0, 1)]

  /** The example list is what two item lines, a £3.00 delivery cost and a £-1.00 voucher assemble into; its total is 7.00. */
  lemma ExampleReconciled()
    ensures AssemblePurchases([ItemMatch("2", "Bananas", "1.00"), ItemMatch("1", "Bread", "2.00")], 3.0, -1.0) == ExamplePurchases
    ensures Total(ExamplePurchases, -1.0, 3.0) == 7.0
  {
    ExamplePriceValues();
    assert DigitsValue("2") == 2 && DigitsValue("1") == 1;
    assert Prices(ExamplePurchases) == [1.0, 2.0, 3.0, -1.0];
  }

  /** `float()` of the three price texts of the example. */
  lemma ExamplePriceValues()
    ensures IsPriceText("1.00") && PriceValue("1.00") == 1.0
    ensures IsPriceText("2.00") && PriceValue("2.00") == 2.0
    ensures IsPriceText("3.00") && PriceValue("3.00") == 3.0
  {
    assert DigitsValue("00") == 0;
    assert "1.00"[..1] == "1" && "1.00"[2..] == "00";
    assert "2.00"[..1] == "2" && "2.00"[2..] == "00";
    assert "3.00"[..1] == "3" && "3.00"[2..] == "00";
  }

  /** The worked receipt, read whole: delivered on Monday 12 March, a total of 7.00, and the four purchases above. */
  lemma ExampleReceiptParsed()
    ensures ParseReceipt(ExampleReceiptText) == Success((OrderInfo("Monday 12 March", 7.0), ExamplePurchases))
  {
    ExampleDateSearch();
    ExampleCostSearch();
    ExampleVoucherSearch();
    ExampleVoucherValue();
    ExamplePriceValues();
    ExampleReceiptItems();
    ExampleReconciled();
    ParseReceiptFound(ExampleReceiptText, "Monday 12 March", "3.00", "-1.00", -1.0);
  }
}
