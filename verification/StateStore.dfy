/** The cursor store: a string per key, with 64-bit integers kept as decimal text. */
module StateStore {
  import opened Wrappers

  type I64 = n: int | -0x8000_0000_0000_0000 <= n < 0x8000_0000_0000_0000

  type Store = map<string, string>

  predicate IsDigit(c: char) { '0' <= c <= '9' }

  function Digits(n: nat): string {
    var last := [(n % 10 + '0' as int) as char];
    if n < 10 then last else Digits(n / 10) + last
  }

  function Print(n: int): string {
    if n < 0 then "-" + Digits(-n) else Digits(n)
  }

  predicate AllDigits(s: string) {
    forall i :: 0 <= i < |s| ==> IsDigit(s[i])
  }

  function Value(s: string): nat
    requires AllDigits(s)
  {
    if s == "" then 0 else 10 * Value(s[..|s| - 1]) + (s[|s| - 1] as int - '0' as int)
  }

  /** One optional sign, then digits only, and no overflow. */
  function Parse(s: string): Option<I64> {
    var signed := s != "" && (s[0] == '-' || s[0] == '+');
    var body := if signed then s[1..] else s;
    if body == "" || !AllDigits(body) then None else
      var n: int := if signed && s[0] == '-' then 0 - Value(body) else Value(body);
      if -0x8000_0000_0000_0000 <= n < 0x8000_0000_0000_0000 then Some(n) else None
  }

  lemma {:induction false} DigitsValue(n: nat)
    ensures Digits(n) != "" && AllDigits(Digits(n)) && Value(Digits(n)) == n
  {
    var s := Digits(n);
    if n < 10 {
      assert s[..|s| - 1] == "";
    } else {
      DigitsValue(n / 10);
      assert s[..|s| - 1] == Digits(n / 10);
    }
  }

  /** A stored integer is read back as it was written. */
  lemma ParsePrint(n: I64)
    ensures Parse(Print(n)) == Some(n)
  {
    var m: nat := if n < 0 then 0 - (n as int) else n;
    DigitsValue(m);
    if n < 0 {
      assert Print(n)[1..] == Digits(m);
    } else {
      assert IsDigit(Digits(m)[0]);
    }
  }

  /** The text is decimal. */
  lemma DecimalText()
    ensures Print(0) == "0" && Print(86_400) == "86400" && Print(-45) == "-45"
    ensures Parse("+7") == Some(7) && Parse("").None? && Parse("-").None? && Parse("1 ").None?
  {
    assert Digits(8) == "8";
    assert Digits(86) == "86";
    assert Digits(864) == "864";
    assert Digits(8640) == "8640";
    assert Digits(4) == "4";
    assert "+7"[1..] == "7" && Value("7"[..0]) == 0;
    assert "-"[1..] == "";
    assert !IsDigit("1 "[1]);
  }

  /** The integer under a key; absent and unreadable values count alike. */
  function GetInt(store: Store, key: string): Option<I64> {
    if key in store then Parse(store[key]) else None
  }

  lemma SetThenGet(store: Store, key: string, n: I64)
    ensures GetInt(store[key := Print(n)], key) == Some(n)
  {
    ParsePrint(n);
  }
}
