/**
 * Printing numbers and reading them back at the kernel debugger's console (kernel/kdb/generic/print.cc: print_hex,
 * print_dec; kernel/kdb/generic/input.cc: get_hex, get_dec). A word has 2 * size hexadecimal digits.
 */
module Numbers {
  import opened Arithmetic

  // ----- positional notation

  function Pow(base: nat, n: nat): nat {
    if n == 0 then 1 else base * Pow(base, n - 1)
  }

  function Rem(v: nat, base: nat): (d: nat)
    requires base > 0
    ensures d < base
  {
    v % base
  }

  function Quot(v: nat, base: nat): (q: nat)
    requires base > 0
    ensures v == base * q + Rem(v, base)
    ensures base > 1 ==> q <= v && (v > 0 ==> q < v)
  {
    QuotBounds(v, base);
    v / base
  }

  lemma QuotBounds(v: nat, base: nat)
    requires base > 0
    ensures v / base >= 0 && v == base * (v / base) + v % base
    ensures base > 1 ==> v / base <= v && (v > 0 ==> v / base < v)
  {
    var q := v / base;
    if base > 1 && q > 0 {
      Monotone(q, 2, base);
      assert q * base == base * q;
    }
  }

  predicate Below(ds: seq<nat>, base: nat) { forall i | 0 <= i < |ds| :: ds[i] < base }

  /** The last n digits of v. */
  function Fixed(v: nat, base: nat, n: nat): (ds: seq<nat>)
    requires base > 1
    ensures |ds| == n && Below(ds, base)
  {
    if n == 0 then [] else Fixed(Quot(v, base), base, n - 1) + [Rem(v, base)]
  }

  /** How many digits v has without leading zeros. */
  function Len(v: nat, base: nat): (n: nat)
    requires base > 1
    ensures n >= 1
  {
    if v < base then 1 else 1 + Len(Quot(v, base), base)
  }

  function Value(ds: seq<nat>, base: nat): nat {
    if ds == [] then 0 else base * Value(ds[..|ds| - 1], base) + ds[|ds| - 1]
  }

  lemma ValuePush(ds: seq<nat>, d: nat, base: nat)
    ensures Value(ds + [d], base) == base * Value(ds, base) + d
    ensures Value([], base) == 0
  {
    assert (ds + [d])[..|ds|] == ds;
  }

  lemma PowPositive(base: nat, n: nat)
    requires base > 0
    ensures Pow(base, n) > 0
  {
  }

  lemma DivBelow(v: nat, base: nat, p: nat)
    requires base > 0
    ensures v < base * p <==> Quot(v, base) < p
  {
    hide Quot, Rem;
    var q := Quot(v, base);
    if q < p {
      assert base * q <= base * (p - 1);
      assert base * (p - 1) == base * p - base;
    } else {
      assert base * q >= base * p by { Monotone(base, p, q); }
    }
  }

  lemma Monotone(k: nat, a: nat, b: nat)
    requires a <= b
    ensures k * a <= k * b
  {
  }

  lemma {:induction false} FixedValue(v: nat, base: nat, n: nat)
    requires base > 1 && v < Pow(base, n)
    ensures Value(Fixed(v, base, n), base) == v
  {
    hide Quot, Rem, Value;
    ValuePush([], 0, base);
    if n == 0 {
    } else {
      DivBelow(v, base, Pow(base, n - 1));
      FixedValue(Quot(v, base), base, n - 1);
      ValuePush(Fixed(Quot(v, base), base, n - 1), Rem(v, base), base);
    }
  }

  lemma {:induction false} ValueBound(ds: seq<nat>, base: nat)
    requires base > 1 && Below(ds, base)
    ensures Value(ds, base) < Pow(base, |ds|)
  {
    if ds == [] {
    } else {
      var front := ds[..|ds| - 1];
      ValueBound(front, base);
      assert base * Value(front, base) + base <= base * Pow(base, |front|) by {
        assert Value(front, base) + 1 <= Pow(base, |front|);
        Monotone(base, Value(front, base) + 1, Pow(base, |front|));
      }
    }
  }

  lemma {:induction false} LenBounds(v: nat, base: nat)
    requires base > 1
    ensures v < Pow(base, Len(v, base))
    ensures Len(v, base) > 1 ==> v >= Pow(base, Len(v, base) - 1)
  {
    hide Quot, Rem;
    if v < base {
      assert Pow(base, 1) == base * Pow(base, 0);
    } else {
      LenBounds(Quot(v, base), base);
      DivBelow(v, base, Pow(base, Len(Quot(v, base), base)));
      DivBelow(v, base, Pow(base, Len(Quot(v, base), base) - 1));
      if Len(Quot(v, base), base) == 1 { assert Pow(base, 1) == base * Pow(base, 0); }
    }
  }

  lemma {:induction false} PowMonotone(base: nat, a: nat, b: nat)
    requires base > 0 && a <= b
    ensures Pow(base, a) <= Pow(base, b)
    decreases b
  {
    if a >= b {
    } else {
      PowMonotone(base, a, b - 1);
      Monotone(Pow(base, b - 1), 1, base);
    }
  }

  lemma LenUnique(v: nat, base: nat, n: nat)
    requires base > 1 && n >= 1 && v < Pow(base, n) && (n == 1 || v >= Pow(base, n - 1))
    ensures n == Len(v, base)
  {
    LenBounds(v, base);
    var l := Len(v, base);
    if l < n { PowMonotone(base, l, n - 1); }
    if n < l { PowMonotone(base, n, l - 1); }
  }

  lemma DivDiv(v: nat, b: nat, c: nat)
    requires b > 0 && c > 0
    ensures b * c > 0 && Quot(Quot(v, b), c) == Quot(v, b * c)
  {
    hide Quot, Rem;
    Monotone(b, 1, c);
    var q, r, s := Quot(Quot(v, b), c), Rem(Quot(v, b), c), Rem(v, b);
    assert v == b * (c * q + r) + s;
    Distribute(b, c, q, r);
    Monotone(b, r + 1, c);
    QuotientUnique(v, q, b * r + s, b * c);
  }

  lemma Distribute(b: nat, c: nat, q: nat, r: nat)
    ensures b * (c * q + r) == b * c * q + b * r
    ensures b * (r + 1) == b * r + b
  {
  }

  lemma QuotientUnique(v: nat, q: nat, r: nat, m: nat)
    requires r < m && v == m * q + r
    ensures Quot(v, m) == q
  {
    ModUnique(v, q, r, m);
    assert m * (v / m) == m * q;
    Multiples(m, q - v / m);
    assert m * (q - v / m) == m * q - m * (v / m);
  }

  lemma {:induction false} FixedAt(v: nat, base: nat, n: nat, j: nat)
    requires base > 1 && j < n
    ensures Pow(base, n - 1 - j) > 0 && Fixed(v, base, n)[j] == Rem(Quot(v, Pow(base, n - 1 - j)), base)
  {
    hide Quot, Rem;
    PowPositive(base, n - 1 - j);
    if j >= n - 1 {
    } else {
      FixedAt(Quot(v, base), base, n - 1, j);
      DivDiv(v, base, Pow(base, n - 2 - j));
    }
  }

  // ----- what is printed

  function DigitChar(d: nat, uppercase: bool): char
    requires d < 16
  {
    if d < 10 then '0' + d as char else (if uppercase then 'A' else 'a') + (d - 10) as char
  }

  function Text(ds: seq<nat>, uppercase: bool): (s: string)
    requires Below(ds, 16)
    ensures |s| == |ds| && forall i | 0 <= i < |ds| :: s[i] == DigitChar(ds[i], uppercase)
  {
    seq(|ds|, i requires 0 <= i < |ds| => DigitChar(ds[i], uppercase))
  }

  function Repeat(c: char, n: int): (s: string)
    ensures |s| == Max(n, 0) && forall i | 0 <= i < |s| :: s[i] == c
  {
    seq(Max(n, 0), _ => c)
  }

  function Max(a: int, b: int): int { if a > b then a else b }

  function HexDigits(v: nat, precision: int): nat { Max(Len(v, 16), precision) }

  function HexText(v: nat, width: int, precision: int, adjleft: bool, nullpad: bool, uppercase: bool): string {
    var digits := Text(Fixed(v, 16, HexDigits(v, precision)), uppercase);
    var padding := width - HexDigits(v, precision);
    if adjleft then digits + Repeat(' ', padding) else Repeat(if nullpad then '0' else ' ', padding) + digits
  }

  function DecText(v: nat, width: int, pad: char): string {
    Repeat(pad, width - Len(v, 10)) + Text(Fixed(v, 10, Len(v, 10)), false)
  }

  /** The character of each digit. */
  function Symbols(uppercase: bool): string { if uppercase then "0123456789ABCDEF" else "0123456789abcdef" }

  lemma DigitShown(d: nat, uppercase: bool)
    requires d < 16
    ensures DigitChar(d, uppercase) == Symbols(uppercase)[d]
  {
  }

  lemma DigitPrinted(v: nat, base: nat, n: nat, j: nat, uppercase: bool)
    requires 1 < base <= 16 && j < n
    ensures Pow(base, n - 1 - j) > 0 && v / Pow(base, n - 1 - j) % base < 16
    ensures Text(Fixed(v, base, n), uppercase)[j] == Symbols(uppercase)[v / Pow(base, n - 1 - j) % base]
  {
    hide DigitChar, Symbols, Text, Fixed, Pow;
    FixedAt(v, base, n, j);
    PowPositive(base, n - 1 - j);
    DigitShown(Rem(Quot(v, Pow(base, n - 1 - j)), base), uppercase);
  }

  /** A printed hexadecimal number, character by character: its digits, on the side and in the case asked for. */
  lemma HexTextAt(v: nat, width: int, precision: int, adjleft: bool, nullpad: bool, uppercase: bool, k: nat)
    requires k < |HexText(v, width, precision, adjleft, nullpad, uppercase)|
    ensures var text := HexText(v, width, precision, adjleft, nullpad, uppercase);
            var n := if precision > Len(v, 16) then precision else Len(v, 16);
            && |text| == (if width > n then width else n)
            && var at := if adjleft then k else k - (|text| - n);
               if 0 <= at < n then
                 Pow(16, n - 1 - at) > 0 && text[k] == Symbols(uppercase)[v / Pow(16, n - 1 - at) % 16]
               else text[k] == if nullpad && !adjleft then '0' else ' '
  {
    hide Symbols, Fixed, Pow, Len;
    var n, text := HexDigits(v, precision), HexText(v, width, precision, adjleft, nullpad, uppercase);
    var at := if adjleft then k else k - (|text| - n);
    if 0 <= at < n { DigitPrinted(v, 16, n, at, uppercase); }
  }

  /** A printed decimal number: the padding, then its digits. */
  lemma DecTextAt(v: nat, width: int, pad: char, k: nat)
    requires k < |DecText(v, width, pad)|
    ensures var text, n := DecText(v, width, pad), Len(v, 10);
            && |text| == (if width > n then width else n)
            && var at := k - (|text| - n);
               if 0 <= at then Pow(10, n - 1 - at) > 0 && text[k] == "0123456789"[v / Pow(10, n - 1 - at) % 10]
               else text[k] == pad
  {
    hide Fixed, Pow, Len;
    var n, text := Len(v, 10), DecText(v, width, pad);
    var at := k - (|text| - n);
    if 0 <= at { DigitPrinted(v, 10, n, at, false); }
  }

  // ----- what is read

  const RETURN := '\r'
  const ESCAPE := '\U{1b}'
  const BACKSPACE := '\U{8}'
  const ABORT_MAGIC: nat := 0x19022002

  /** The line being edited, as the digits it holds. */
  datatype Line = Typing(digits: seq<nat>) | Entered(digits: seq<nat>) | Default | Aborted

  function DigitOf(c: char, base: nat): (d: nat)
    requires base <= 16
    ensures d <= base
  {
    var d := if '0' <= c <= '9' then (c - '0') as nat else if 'a' <= c <= 'f' then (c - 'a') as nat + 10
             else if 'A' <= c <= 'F' then (c - 'A') as nat + 10 else base;
    if d < base then d else base
  }

  /** One key: a digit is appended, a backspace deletes, and x makes a lone hexadecimal 0 a prefix. */
  function Key(ds: seq<nat>, c: char, base: nat): Line
    requires base <= 16
  {
    if DigitOf(c, base) < base then Typing(ds + [DigitOf(c, base)])
    else if base == 16 && (c == 'x' || c == 'X') && ds == [0] then Typing([])
    else if c == BACKSPACE && ds != [] then Typing(ds[..|ds| - 1])
    else if c == RETURN then if ds == [] then Default else Entered(ds)
    else if c == ESCAPE then Aborted
    else Typing(ds)
  }

  /** What the keys make of the line, up to its end or until it is full; and the keys left unread. */
  function Edit(ds: seq<nat>, keys: string, base: nat, room: Room): (r: (Line, string))
    requires base <= 16
    decreases |keys|
  {
    if room.Digits? && |ds| >= room.count then (Entered(ds), keys)
    else if keys == [] then (Typing(ds), keys)
    else
      var line := Key(ds, keys[0], base);
      if line.Typing? then Edit(line.digits, keys[1..], base, room) else (line, keys[1..])
  }

  datatype Room = Digits(count: nat) | Endless

  /** What get_hex and get_dec return for a line; nothing while they wait for more keys. */
  datatype Reply = Waiting | Number(value: nat)

  // ----- reading what was printed

  lemma DigitRead(ds: seq<nat>, d: nat, uppercase: bool, base: nat)
    requires d < base && (base == 10 || base == 16)
    ensures Key(ds, DigitChar(d, uppercase), base) == Typing(ds + [d])
  {
  }

  lemma NoText(uppercase: bool, rest: string)
    ensures Text([], uppercase) + rest == rest
  {
  }

  lemma TextStep(ds: seq<nat>, uppercase: bool, rest: string)
    requires Below(ds, 16) && ds != []
    ensures Below(ds[1..], 16)
    ensures var all := Text(ds, uppercase) + rest;
            all != [] && all[0] == DigitChar(ds[0], uppercase) && all[1..] == Text(ds[1..], uppercase) + rest
  {
    var all := Text(ds, uppercase) + rest;
    assert all[1..] == Text(ds[1..], uppercase) + rest;
  }

  /** Typed digits fill the line as far as there is room. */
  lemma {:induction false} EditDigits(ds: seq<nat>, more: seq<nat>, uppercase: bool, rest: string, base: nat,
                                      room: Room)
    requires base == 10 || base == 16
    requires Below(more, base)
    requires room.Digits? ==> |ds| + |more| <= room.count
    ensures Edit(ds, Text(more, uppercase) + rest, base, room) == Edit(ds + more, rest, base, room)
    decreases |more|
  {
    hide Key, DigitChar, Text;
    if more == [] {
      NoText(uppercase, rest);
      assert ds + more == ds;
    } else {
      DigitRead(ds, more[0], uppercase, base);
      TextStep(more, uppercase, rest);
      EditDigits(ds + [more[0]], more[1..], uppercase, rest, base, room);
      assert ds + [more[0]] + more[1..] == ds + more;
    }
  }

  /** Keys that leave the line alone do not matter, unless the line is full and they stay unread. */
  lemma {:induction false} EditSkips(ds: seq<nat>, c: char, n: nat, rest: string, base: nat, room: Room)
    requires base <= 16 && Key(ds, c, base) == Typing(ds)
    ensures Edit(ds, Repeat(c, n) + rest, base, room).0 == Edit(ds, rest, base, room).0
    ensures room.Endless? ==> Edit(ds, Repeat(c, n) + rest, base, room) == Edit(ds, rest, base, room)
    decreases n
  {
    var all := Repeat(c, n) + rest;
    if n == 0 {
      assert all == rest;
    } else {
      assert all[0] == c && all[1..] == Repeat(c, n - 1) + rest;
      EditSkips(ds, c, n - 1, rest, base, room);
    }
  }

  function Zeros(n: nat): (ds: seq<nat>)
    ensures |ds| == n && forall i | 0 <= i < |ds| :: ds[i] == 0
  {
    seq(n, _ => 0)
  }

  lemma {:induction false} FixedPad(v: nat, base: nat, n: nat, more: nat)
    requires base > 1 && v < Pow(base, n)
    ensures Fixed(v, base, more + n) == Zeros(more) + Fixed(v, base, n)
    decreases n
  {
    hide Quot, Rem;
    if n > 0 {
      DivBelow(v, base, Pow(base, n - 1));
      FixedPad(Quot(v, base), base, n - 1, more);
    } else {
      FixedZero(base, more);
    }
  }

  lemma {:induction false} FixedZero(base: nat, n: nat)
    requires base > 1
    ensures Fixed(0, base, n) == Zeros(n)
  {
    hide Quot, Rem;
    if n == 0 {
    } else {
      FixedZero(base, n - 1);
    }
  }

  /** The leading digits of a number make a smaller number. */
  lemma {:induction false} PrefixLess(v: nat, base: nat, n: nat, k: nat)
    requires base > 1 && v < Pow(base, n) && k < n
    ensures Value(Fixed(v, base, n)[..k], base) <= v
    ensures v > 0 ==> Value(Fixed(v, base, n)[..k], base) < v
    decreases n
  {
    hide Quot, Rem;
    DivBelow(v, base, Pow(base, n - 1));
    assert Fixed(v, base, n)[..k] == Fixed(Quot(v, base), base, n - 1)[..k];
    assert Quot(v, base) <= v && (v > 0 ==> Quot(v, base) < v);
    if k == n - 1 {
      assert Fixed(Quot(v, base), base, n - 1)[..k] == Fixed(Quot(v, base), base, n - 1);
      FixedValue(Quot(v, base), base, n - 1);
    } else {
      PrefixLess(Quot(v, base), base, n - 1, k);
    }
  }

  lemma SpaceSkipped(ds: seq<nat>)
    ensures Key(ds, ' ', 16) == Typing(ds)
  {
  }

  lemma EditReturn(ds: seq<nat>, rest: string, room: Room)
    requires ds != []
    ensures Edit(ds, [RETURN] + rest, 16, room).0 == Entered(ds)
  {
  }

  lemma EditFull(ds: seq<nat>, keys: string, room: Room)
    requires room.Digits? && |ds| >= room.count
    ensures Edit(ds, keys, 16, room) == (Entered(ds), keys)
  {
  }

  lemma TextSplit(ds: seq<nat>, k: nat, uppercase: bool, tail: string)
    requires Below(ds, 16) && k <= |ds|
    ensures Text(ds, uppercase) + tail == Text(ds[..k], uppercase) + (Text(ds[k..], uppercase) + tail)
  {
  }

  /** Digits followed by RETURN enter what the line has room for. */
  lemma EditNumber(all: seq<nat>, spaces: nat, uppercase: bool, rest: string, size: nat)
    requires size > 0 && all != [] && Below(all, 16)
    ensures var kept := if |all| <= 2 * size then all else all[..2 * size];
            var keys := Text(all, uppercase) + (Repeat(' ', spaces) + ([RETURN] + rest));
            Edit([], keys, 16, Digits(2 * size)).0 == Entered(kept)
  {
    hide Text, Repeat, Key, Value, Edit;
    var tail := Repeat(' ', spaces) + ([RETURN] + rest);
    if |all| <= 2 * size {
      EditDigits([], all, uppercase, tail, 16, Digits(2 * size));
      assert [] + all == all;
      SpaceSkipped(all);
      EditSkips(all, ' ', spaces, [RETURN] + rest, 16, Digits(2 * size));
      EditReturn(all, rest, Digits(2 * size));
    } else {
      var kept, lost := all[..2 * size], all[2 * size..];
      TextSplit(all, 2 * size, uppercase, tail);
      EditFull(kept, Text(lost, uppercase) + tail, Digits(2 * size));
      EditDigits([], kept, uppercase, Text(lost, uppercase) + tail, 16, Digits(2 * size));
      assert [] + kept == kept;
    }
  }

  /** How many digits print_hex prints, padding zeros among them. */
  function PrintedDigits(v: nat, width: int, precision: int, adjleft: bool, nullpad: bool): nat {
    if !adjleft && nullpad then Max(HexDigits(v, precision), width) else HexDigits(v, precision)
  }

  lemma TextPad(v: nat, base: nat, n: nat, more: nat, uppercase: bool)
    requires 1 < base <= 16 && v < Pow(base, n)
    ensures Repeat('0', more) + Text(Fixed(v, base, n), uppercase) == Text(Fixed(v, base, more + n), uppercase)
  {
    hide Quot, Rem, Fixed, Pow;
    FixedPad(v, base, n, more);
  }

  lemma Padded(text: string, c: char)
    ensures Repeat(c, 0) + text == text && text + Repeat(c, 0) == text
  {
  }

  lemma HexTextShape(v: nat, width: int, precision: int, adjleft: bool, nullpad: bool, uppercase: bool)
    returns (before: nat, after: nat)
    ensures v < Pow(16, HexDigits(v, precision))
    ensures HexDigits(v, precision) <= PrintedDigits(v, width, precision, adjleft, nullpad)
    ensures var all := Fixed(v, 16, PrintedDigits(v, width, precision, adjleft, nullpad));
            HexText(v, width, precision, adjleft, nullpad, uppercase) ==
            Repeat(' ', before) + Text(all, uppercase) + Repeat(' ', after)
  {
    hide Quot, Rem, Fixed, Text, Repeat, Len, Pow;
    var n := HexDigits(v, precision);
    LenBounds(v, 16);
    PowMonotone(16, Len(v, 16), n);
    var padding := Max(width - n, 0);
    RepeatNone(' ', width - n);
    RepeatNone('0', width - n);
    if adjleft {
      before, after := 0, padding;
      Padded(HexText(v, width, precision, adjleft, nullpad, uppercase), ' ');
      Padded(Text(Fixed(v, 16, n), uppercase), ' ');
    } else if nullpad {
      TextPad(v, 16, n, padding, uppercase);
      before, after := 0, 0;
      Padded(HexText(v, width, precision, adjleft, nullpad, uppercase), ' ');
    } else {
      before, after := padding, 0;
      Padded(HexText(v, width, precision, adjleft, nullpad, uppercase), ' ');
    }
  }

  lemma RepeatNone(c: char, n: int)
    ensures Repeat(c, n) == Repeat(c, Max(n, 0))
  {
  }

  /** Reading a printed hexadecimal number gives it back, exactly if its digits fit the line (or it is zero). */
  lemma HexRoundTrip(v: nat, size: nat, width: int, precision: int, adjleft: bool, nullpad: bool, uppercase: bool,
                     rest: string)
    requires size > 0 && v < Pow(16, 2 * size)
    ensures var keys := HexText(v, width, precision, adjleft, nullpad, uppercase) + ([RETURN] + rest);
            var line := Edit([], keys, 16, Digits(2 * size)).0;
            && line.Entered?
            && (Value(line.digits, 16) == v <==>
                  v == 0 || PrintedDigits(v, width, precision, adjleft, nullpad) <= 2 * size)
  {
    hide Edit, Text, Repeat, Fixed, Value;
    var before, after := HexTextShape(v, width, precision, adjleft, nullpad, uppercase);
    var n := PrintedDigits(v, width, precision, adjleft, nullpad);
    var all := Fixed(v, 16, n);
    PowMonotone(16, HexDigits(v, precision), n);
    var tail := [RETURN] + rest;
    var text := Text(all, uppercase) + (Repeat(' ', after) + tail);
    assert HexText(v, width, precision, adjleft, nullpad, uppercase) + tail == Repeat(' ', before) + text;
    EditSkips([], ' ', before, text, 16, Digits(2 * size));
    EditNumber(all, after, uppercase, rest, size);
    if n <= 2 * size {
      FixedValue(v, 16, n);
    } else {
      PrefixLess(v, 16, n, 2 * size);
    }
  }

  // ----- decimal numbers

  /** The line as get_dec keeps it, in a word and a counter. */
  function DecKeys(num: nat, len: nat, keys: string, words: nat, default: nat): (r: (Reply, string))
    requires words > 0
    decreases |keys|
  {
    if keys == [] then (Waiting, keys)
    else
      var (c, rest) := (keys[0], keys[1..]);
      if c == RETURN then (Number(if len == 0 then default else num), rest)
      else if c == ESCAPE then (Number(ABORT_MAGIC), rest)
      else if '0' <= c <= '9' then DecKeys(WordPush(num, 10, (c - '0') as nat, words), len + 1, rest, words, default)
      else if c == BACKSPACE && len > 0 then DecKeys(Quot(num, 10), len - 1, rest, words, default)
      else DecKeys(num, len, rest, words, default)
  }

  function ReplyTo(line: Line, base: nat, default: nat): Reply {
    match line
    case Typing(_) => Waiting
    case Entered(ds) => Number(Value(ds, base))
    case Default => Number(default)
    case Aborted => Number(ABORT_MAGIC)
  }

  /** The line never holds a number too big for a word. */
  predicate Fits(ds: seq<nat>, keys: string, words: nat)
    decreases |keys|
  {
    && Value(ds, 10) < words
    && (keys != [] && Key(ds, keys[0], 10).Typing? ==> Fits(Key(ds, keys[0], 10).digits, keys[1..], words))
  }

  lemma ValuePop(ds: seq<nat>, base: nat)
    requires ds != [] && base > 0 && Below(ds, base)
    ensures Value(ds[..|ds| - 1], base) == Quot(Value(ds, base), base)
    ensures Below(ds[..|ds| - 1], base)
  {
    QuotientUnique(Value(ds, base), Value(ds[..|ds| - 1], base), ds[|ds| - 1], base);
  }

  lemma EditStep(ds: seq<nat>, keys: string, base: nat, room: Room)
    requires base <= 16 && keys != [] && (room.Digits? ==> |ds| < room.count)
    ensures Edit(ds, keys, base, room) ==
            var line := Key(ds, keys[0], base);
            if line.Typing? then Edit(line.digits, keys[1..], base, room) else (line, keys[1..])
  {
  }

  lemma EditWaits(ds: seq<nat>, base: nat, room: Room)
    requires base <= 16 && (room.Digits? ==> |ds| < room.count)
    ensures Edit(ds, [], base, room) == (Typing(ds), [])
  {
  }

  lemma FitsStep(ds: seq<nat>, keys: string, words: nat)
    requires Fits(ds, keys, words)
    ensures Value(ds, 10) < words
    ensures keys != [] && Key(ds, keys[0], 10).Typing? ==> Fits(Key(ds, keys[0], 10).digits, keys[1..], words)
  {
  }

  /** As long as it does, the word and the counter stand for the line. */
  lemma {:induction false} DecLine(ds: seq<nat>, keys: string, words: nat, default: nat)
    requires words > 0 && Fits(ds, keys, words) && Below(ds, 10)
    ensures var (line, rest) := Edit(ds, keys, 10, Endless);
            DecKeys(Value(ds, 10), |ds|, keys, words, default) == (ReplyTo(line, 10, default), rest)
    decreases |keys|
  {
    hide Quot, Rem, Edit, Value, Fits;
    FitsStep(ds, keys, words);
    if keys == [] {
      EditWaits(ds, 10, Endless);
    } else {
      EditStep(ds, keys, 10, Endless);
      var c := keys[0];
      if '0' <= c <= '9' {
        var d := (c - '0') as nat;
        ValuePush(ds, d, 10);
        FitsStep(ds + [d], keys[1..], words);
        DecLine(ds + [d], keys[1..], words, default);
      } else if c == BACKSPACE && ds != [] {
        ValuePop(ds, 10);
        DecLine(ds[..|ds| - 1], keys[1..], words, default);
      } else if c != RETURN && c != ESCAPE {
        DecLine(ds, keys[1..], words, default);
      }
    }
  }

  /** Deleting a digit takes back its typing exactly if the number with it fitted a word. */
  lemma BackspaceUndoes(num: nat, d: nat, words: nat)
    requires num < words && d < 10 <= words
    ensures Quot(Rem(num * 10 + d, words), 10) == num <==> num * 10 + d < words
  {
    hide Quot, Rem;
    var x := num * 10 + d;
    if x < words {
      RemSmall(x, words);
      QuotientUnique(x, num, d, 10);
    } else {
      RemDrops(x, words);
      DivBelow(Rem(x, words), 10, num);
    }
  }

  lemma RemSmall(x: nat, m: nat)
    requires x < m
    ensures Rem(x, m) == x
  {
  }

  /** Wrapping around takes at least a whole word off. */
  lemma RemDrops(x: nat, m: nat)
    requires 0 < m <= x
    ensures Rem(x, m) <= x - m
  {
    hide Quot, Rem;
    var q := Quot(x, m);
    if q > 0 { Monotone(m, 1, q); }
  }

  lemma {:induction false} FitsDigits(v: nat, n: nat, k: nat, rest: string, words: nat)
    requires v < words && v < Pow(10, n) && k <= n
    requires Fits(Fixed(v, 10, n), rest, words)
    ensures Fits(Fixed(v, 10, n)[..k], Text(Fixed(v, 10, n)[k..], false) + rest, words)
    decreases n - k
  {
    hide Quot, Rem, Fixed, Value, Key, DigitChar, Text;
    var ds := Fixed(v, 10, n);
    var keys := Text(ds[k..], false) + rest;
    if k == n {
      NoText(false, rest);
      assert ds[..k] == ds && ds[k..] == [];
    } else {
      FitsDigits(v, n, k + 1, rest, words);
      PrefixLess(v, 10, n, k);
      DigitRead(ds[..k], ds[k], false, 10);
      TextStep(ds[k..], false, rest);
      assert ds[k..][1..] == ds[k + 1..] && ds[..k] + [ds[k]] == ds[..k + 1];
    }
  }

  lemma FitsReturn(ds: seq<nat>, rest: string, words: nat)
    requires Value(ds, 10) < words && ds != []
    ensures Fits(ds, [RETURN] + rest, words) && Edit(ds, [RETURN] + rest, 10, Endless) == (Entered(ds), rest)
  {
  }

  lemma PadSkipped(pad: char)
    requires Harmless(pad) && pad != '0'
    ensures Key([], pad, 10) == Typing([])
  {
  }

  lemma {:induction false} FitsSkips(c: char, n: nat, keys: string, words: nat)
    requires Key([], c, 10) == Typing([]) && Fits([], keys, words)
    ensures Fits([], Repeat(c, n) + keys, words)
    decreases n
  {
    var all := Repeat(c, n) + keys;
    if n == 0 {
      assert all == keys;
    } else {
      assert all[0] == c && all[1..] == Repeat(c, n - 1) + keys;
      FitsSkips(c, n - 1, keys, words);
    }
  }

  lemma DecTextShape(v: nat, width: int, pad: char) returns (before: nat, n: nat)
    ensures n > 0 && v < Pow(10, n)
    ensures DecText(v, width, pad) == Repeat(pad, before) + Text(Fixed(v, 10, n), false)
    ensures pad == '0' ==> before == 0
  {
    hide Quot, Rem, Fixed, Text, Repeat, Len, Pow;
    LenBounds(v, 10);
    n, before := Len(v, 10), Max(width - Len(v, 10), 0);
    RepeatNone(pad, width - n);
    if pad == '0' {
      TextPad(v, 10, n, before, false);
      PowMonotone(10, n, before + n);
      Padded(Text(Fixed(v, 10, before + n), false), '0');
      n, before := before + n, 0;
    }
  }

  /** A padding character that reads as no digit other than 0 and does not end the line. */
  predicate Harmless(pad: char) {
    pad != RETURN && pad != ESCAPE && !('1' <= pad <= '9')
  }

  lemma DecRoundTrip(v: nat, width: int, pad: char, words: nat, default: nat, rest: string)
    requires v < words && Harmless(pad)
    ensures DecKeys(0, 0, DecText(v, width, pad) + [RETURN] + rest, words, default) == (Number(v), rest)
  {
    hide Quot, Rem, Fixed, Value, Key, DigitChar, Text, Repeat, Fits, Edit, DecKeys, DecText, Pow, Len;
    var before, n := DecTextShape(v, width, pad);
    var ds, tail := Fixed(v, 10, n), [RETURN] + rest;
    FixedValue(v, 10, n);
    FitsReturn(ds, rest, words);
    FitsDigits(v, n, 0, tail, words);
    var digits := Text(ds, false) + tail;
    assert ds[0..] == ds && ds[..0] == [];
    EditDigits([], ds, false, tail, 10, Endless);
    var keys := Repeat(pad, before) + digits;
    assert [] + ds == ds;
    if before > 0 {
      PadSkipped(pad);
      FitsSkips(pad, before, digits, words);
      EditSkips([], pad, before, digits, 10, Endless);
    } else {
      assert keys == digits;
    }
    DecLine([], keys, words, default);
    ValuePush([], 0, 10);
    assert keys == DecText(v, width, pad) + [RETURN] + rest;
  }

  // ----- the console

  /** Appending a digit in word arithmetic. */
  function WordPush(num: nat, base: nat, d: nat, words: nat): (r: nat)
    requires words > 0
    ensures r < words && (base * num + d < words ==> r == base * num + d)
  {
    Rem(base * num + d, words)
  }

  lemma LoneZero(ds: seq<nat>)
    requires |ds| == 1
    ensures Value(ds, 16) == ds[0] && (Value(ds, 16) == 0 <==> ds == [0]) && Value([], 16) == 0 < Pow(16, 0)
  {
  }

  lemma PowNext(base: nat, n: nat)
    ensures Pow(base, 0) == 1 && Pow(base, n + 1) == base * Pow(base, n)
  {
  }

  /** Dividing a power of ten by ten lowers it, and ends at zero. */
  lemma NextDivisor(n: nat)
    requires n > 0
    ensures Quot(Pow(10, n - 1), 10) == if n > 1 then Pow(10, n - 2) else 0
    ensures n > 1 ==> Pow(10, n - 2) > 0
  {
    hide Quot, Rem;
    if n > 1 { PowPositive(10, n - 2); }
    if n > 1 { QuotientUnique(Pow(10, n - 1), Pow(10, n - 2), 0, 10); } else { QuotientUnique(1, 0, 1, 10); }
  }

  lemma RepeatMore(c: char, n: nat)
    requires n > 0
    ensures Repeat(c, n) == Repeat(c, n - 1) + [c]
  {
  }

  /** A word has room for the digits of a line that is not full. */
  lemma HexPush(ds: seq<nat>, d: nat, size: nat)
    requires Below(ds, 16) && |ds| < 2 * size && d < 16
    ensures Below(ds + [d], 16)
    ensures Value(ds + [d], 16) == 16 * Value(ds, 16) + d < Pow(16, |ds| + 1) <= Pow(16, 2 * size)
  {
    ValuePush(ds, d, 16);
    ValueBound(ds + [d], 16);
    PowMonotone(16, |ds| + 1, 2 * size);
  }

  /** The weight of the digit at a place; dividing by it shifts the digits out. */
  function Positive(n: nat): (p: nat)
    ensures p > 0 && p == Pow(16, n)
  {
    PowPositive(16, n);
    Pow(16, n)
  }

  lemma Joined(a: string, b: string, c: string)
    ensures (a + b) + c == a + (b + c)
  {
  }

  lemma SamePadding(c: char, a: int, b: int)
    requires Max(a, 0) == Max(b, 0)
    ensures Repeat(c, a) == Repeat(c, b)
  {
    RepeatNone(c, a);
    RepeatNone(c, b);
  }

  lemma QuotZero(v: nat, p: nat)
    requires p > 0
    ensures Quot(v, p) == 0 <==> v < p
  {
    DivBelow(v, p, 1);
  }

  class Console {
    var screen: string
    var keys: string

    constructor (keys: string)
      ensures this.keys == keys && screen == ""
    {
      this.keys := keys;
      screen := "";
    }

    method PutChar(c: char)
      modifies this`screen
      ensures screen == old(screen) + [c]
    {
      screen := screen + [c];
    }

    method PutTimes(c: char, times: int) returns (n: nat)
      modifies this`screen
      ensures screen == old(screen) + Repeat(c, times) && n == Max(times, 0)
    {
      n := 0;
      while n < times
        invariant n <= Max(times, 0) && screen == old(screen) + Repeat(c, n)
      {
        PutChar(c);
        n := n + 1;
        assert Repeat(c, n) == Repeat(c, n - 1) + [c];
      }
    }

    /** Emits the number; the count is that of the characters. */
    method PrintHex(size: nat, val: nat, width: int, precision: int, adjleft: bool, nullpad: bool, uppercase: bool)
      returns (n: nat)
      requires size > 0 && val < Pow(16, 2 * size) && precision <= 2 * size
      modifies this`screen
      ensures screen == old(screen) + HexText(val, width, precision, adjleft, nullpad, uppercase)
      ensures n == |HexText(val, width, precision, adjleft, nullpad, uppercase)|
      ensures n == Max(width, HexDigits(val, precision))
    {
      hide Quot, Rem, Fixed, Repeat, Len, Text, Pow;
      var nwidth := HexWidth(size, val);
      if precision > nwidth { nwidth := precision; }
      var width' := width;
      if width == 0 && width < nwidth { width' := nwidth; }
      assert nwidth == HexDigits(val, precision);
      ghost var padding := width - nwidth;
      SamePadding(' ', width' - nwidth, padding);
      SamePadding('0', width' - nwidth, padding);
      n := 0;
      ghost var start := screen;
      if !adjleft {
        n := PutTimes(if nullpad then '0' else ' ', width' - nwidth);
        assert screen == start + Repeat(if nullpad then '0' else ' ', padding);
      }
      ghost var between := screen;
      var digits := PutDigits(val, nwidth, uppercase);
      n := n + digits;
      assert screen == between + Text(Fixed(val, 16, nwidth), uppercase);
      if adjleft {
        var spaces := PutTimes(' ', width' - nwidth);
        n := n + spaces;
        Joined(start, Text(Fixed(val, 16, nwidth), uppercase), Repeat(' ', padding));
      } else {
        Joined(start, Repeat(if nullpad then '0' else ' ', padding), Text(Fixed(val, 16, nwidth), uppercase));
      }
    }

    /** The number of hexadecimal digits. */
    method HexWidth(size: nat, val: nat) returns (nwidth: nat)
      requires size > 0 && val < Pow(16, 2 * size)
      ensures nwidth == Len(val, 16)
    {
      hide Quot, Rem, Len;
      nwidth := 0;
      while Quot(val, Positive(nwidth)) != 0 && nwidth < 2 * size
        invariant nwidth <= 2 * size
        invariant nwidth > 0 ==> val >= Pow(16, nwidth - 1)
        decreases 2 * size - nwidth
      {
        QuotZero(val, Positive(nwidth));
        nwidth := nwidth + 1;
      }
      QuotZero(val, Positive(nwidth));
      if nwidth == 0 { nwidth := 1; }
      LenUnique(val, 16, nwidth);
    }

    method PutDigits(val: nat, nwidth: nat, uppercase: bool) returns (n: nat)
      modifies this`screen
      ensures screen == old(screen) + Text(Fixed(val, 16, nwidth), uppercase) && n == nwidth
    {
      hide Quot, Rem, Fixed, Pow, DigitChar;
      var ds := Fixed(val, 16, nwidth);
      n := 0;
      while n < nwidth
        invariant n <= nwidth && screen == old(screen) + Text(ds, uppercase)[..n]
      {
        FixedAt(val, 16, nwidth, n);
        PutChar(DigitChar(Rem(Quot(val, Pow(16, nwidth - 1 - n)), 16), uppercase));
        n := n + 1;
      }
    }
  
    /** The divisor never exceeds the value (or one), so no multiplication overflows. */
    method PrintDec(val: nat, width: int, pad: char) returns (count: nat)
      modifies this`screen
      ensures screen == old(screen) + DecText(val, width, pad)
      ensures count == |DecText(val, width, pad)| == Max(width, Len(val, 10))
    {
      hide Quot, Rem, Fixed, Repeat, Len, Pow, DigitChar;
      var divisor, digits := Leading(val);
      ghost var text, pads := Text(Fixed(val, 10, digits), false), Repeat(pad, width - digits);
      ghost var start, n := screen, digits;
      count := digits;
      while count < width
        invariant n <= count <= Max(width, n) && screen == start + Repeat(pad, count - n)
      {
        PutChar(pad);
        count := count + 1;
        RepeatMore(pad, count - n);
      }
      SamePadding(pad, count - n, width - n);
      ghost var between, k := screen, 0;
      assert text[..0] == "";
      while true
        invariant k < n && divisor == Pow(10, n - 1 - k) && screen == between + text[..k]
        decreases n - k
      {
        FixedAt(val, 10, n, k);
        assert DigitChar(Rem(Quot(val, divisor), 10), false) == text[k];
        PutChar(DigitChar(Rem(Quot(val, divisor), 10), false));
        NextDivisor(n - k);
        k := k + 1;
        assert text[..k] == text[..k - 1] + [text[k - 1]];
        divisor := Quot(divisor, 10);
        if divisor == 0 { break; }
      }
      assert text[..n] == text;
      Joined(start, pads, text);
    }

    /** The greatest power of ten not above the value, and how many digits that makes. */
    method Leading(val: nat) returns (divisor: nat, digits: nat)
      ensures digits == Len(val, 10) && divisor == Pow(10, digits - 1)
    {
      hide Quot, Rem, Len, Pow;
      divisor, digits := 1, 1;
      PowNext(10, 0);
      while Quot(val, divisor) >= 10
        invariant digits >= 1 && divisor == Pow(10, digits - 1) && 0 < divisor <= Max(val, 1)
        invariant digits > 1 ==> val >= divisor
        decreases val - divisor
      {
        DivBelow(val, divisor, 10);
        PowNext(10, digits - 1);
        divisor := divisor * 10;
        digits := digits + 1;
      }
      DivBelow(val, divisor, 10);
      PowNext(10, digits - 1);
      LenUnique(val, 10, digits);
    }

    /** Reads up to the end of the line, or waits for more keys. The word always holds the number being edited. */
    method GetHex(size: nat, default: nat) returns (r: Reply)
      requires size > 0
      modifies this`keys
      ensures var (line, rest) := Edit([], old(keys), 16, Digits(2 * size));
              r == ReplyTo(line, 16, default) && keys == rest
    {
      hide Quot, Rem, Pow, Edit, Value;
      var num, len, words := 0, 0, Positive(2 * size);
      ghost var ds: seq<nat>, room := [], Digits(2 * size);
      ValuePush([], 0, 16);
      PowNext(16, 0);
      while len < 2 * size
        invariant Below(ds, 16) && len == |ds| <= 2 * size && num == Value(ds, 16) < Pow(16, len)
        invariant Edit([], old(keys), 16, room) == Edit(ds, keys, 16, room)
        decreases |keys|
      {
        if keys == [] {
          EditWaits(ds, 16, room);
          return Waiting;
        }
        EditStep(ds, keys, 16, room);
        var c := keys[0];
        keys := keys[1..];
        if DigitOf(c, 16) < 16 {
          HexPush(ds, DigitOf(c, 16), size);
          num := WordPush(num, 16, DigitOf(c, 16), words);
          len := len + 1;
          ds := ds + [DigitOf(c, 16)];
        } else if c == 'x' || c == 'X' {
          if len == 1 && num == 0 {
            LoneZero(ds);
            len := len - 1;
            ds := [];
          } else if len == 1 {
            LoneZero(ds);
          }
        } else if c == BACKSPACE {
          if len > 0 {
            ValuePop(ds, 16);
            num := Quot(num, 16);
            len := len - 1;
            ds := ds[..|ds| - 1];
            ValueBound(ds, 16);
          }
        } else if c == RETURN {
          return Number(if len == 0 then default else num);
        } else if c == ESCAPE {
          return Number(ABORT_MAGIC);
        }
      }
      EditFull(ds, keys, room);
      r := Number(num);
    }

    method GetDec(words: nat, default: nat) returns (r: Reply)
      requires words > 0
      modifies this`keys
      ensures (r, keys) == DecKeys(0, 0, old(keys), words, default)
      ensures Fits([], old(keys), words) ==> r == ReplyTo(Edit([], old(keys), 10, Endless).0, 10, default)
    {
      hide Quot, Rem, Edit, Value;
      ValuePush([], 0, 10);
      if Fits([], keys, words) { DecLine([], keys, words, default); }
      var num, len := 0, 0;
      while true
        invariant DecKeys(0, 0, old(keys), words, default) == DecKeys(num, len, keys, words, default)
        decreases |keys|
      {
        if keys == [] { return Waiting; }
        var c := keys[0];
        keys := keys[1..];
        if '0' <= c <= '9' {
          num := WordPush(num, 10, (c - '0') as nat, words);
          len := len + 1;
        } else if c == BACKSPACE {
          if len > 0 {
            num := Quot(num, 10);
            len := len - 1;
          }
        } else if c == RETURN {
          return Number(if len == 0 then default else num);
        } else if c == ESCAPE {
          return Number(ABORT_MAGIC);
        }
      }
    }
  }
}
