/** The keys of agent-loop outputs, `{uid}_{session_id}_{index}` (verl/trainer/main_ppo_sync.py). */
module SessionKeys {
  import opened Outcomes

  predicate AllDigits(s: string) { forall k :: 0 <= k < |s| ==> '0' <= s[k] <= '9' }

  /** A non-negative integer in an f-string. */
  function Digits(n: nat): (s: string)
    ensures |s| > 0 && AllDigits(s) && '_' !in s
  {
    (if n < 10 then [] else Digits(n / 10)) + [('0' as int + n % 10) as char]
  }

  predicate IsBlank(c: char) { c == ' ' || 9 <= c as int <= 13 }

  predicate AllBlank(s: string) { forall k :: 0 <= k < |s| ==> IsBlank(s[k]) }

  function Stripped(s: string): string {
    if s != [] && IsBlank(s[0]) then Stripped(s[1..])
    else if s != [] && IsBlank(s[|s| - 1]) then Stripped(s[..|s| - 1])
    else s
  }

  /** Digits with an optional sign. */
  predicate IsNumeral(t: string) {
    var digits := Unsigned(t);
    digits != [] && AllDigits(digits)
  }

  function Unsigned(t: string): string { if t != [] && (t[0] == '+' || t[0] == '-') then t[1..] else t }

  function NumeralValue(t: string): int
    requires IsNumeral(t)
  {
    if t[0] == '-' then 0 - DigitsValue(Unsigned(t)) else DigitsValue(Unsigned(t))
  }

  /** `int(...)` of a string without underscores: blanks around the numeral do not matter. None where it
      raises. */
  function ParseInt(s: string): Option<int> {
    var t := Stripped(s);
    if IsNumeral(t) then Some(NumeralValue(t)) else None
  }

  function DigitsValue(s: string): nat
    requires AllDigits(s)
  {
    if s == [] then 0 else 10 * DigitsValue(s[..|s| - 1]) + (s[|s| - 1] as int - '0' as int)
  }

  /** `s.rsplit("_", times)`. */
  function RSplit(s: string, times: nat): seq<string> {
    if times == 0 || '_' !in s then [s]
    else
      var i := LastUnderscore(s);
      RSplit(s[..i], times - 1) + [s[i + 1..]]
  }

  function LastUnderscore(s: string): (i: nat)
    requires '_' in s
    ensures i < |s| && s[i] == '_' && '_' !in s[i + 1..]
  {
    if s[|s| - 1] == '_' then |s| - 1 else LastUnderscore(s[..|s| - 1])
  }

  function PrintKey(uid: string, session: nat, index: nat): string {
    SessionKey(uid, Digits(session)) + "_" + Digits(index)
  }

  function SessionKey(uid: string, session: string): string { uid + "_" + session }

  /** The session key and the output index of a row. */
  datatype Row = Row(session: string, index: int)

  /** None where the source's assert fails or `int` raises. */
  function ParseKey(key: string): Option<Row> {
    var fields := RSplit(key, 2);
    if |fields| != 3 || ParseInt(fields[2]).None? then None
    else Some(Row(SessionKey(fields[0], fields[1]), ParseInt(fields[2]).value))
  }

  lemma {:induction false} ValueOfDigits(n: nat)
    ensures DigitsValue(Digits(n)) == n
  {
    var s := Digits(n);
    var last := s[|s| - 1];
    assert last as int == '0' as int + n % 10;
    if n >= 10 {
      ValueOfDigits(n / 10);
      assert s[..|s| - 1] == Digits(n / 10);
    } else {
      assert |s| == 1 && s[..0] == [];
      assert DigitsValue(s[..0]) == 0;
    }
  }

  /** Printing is canonical: of all digit strings with this value it is the one without leading zeros. */
  lemma DigitsCanonical(s: string, n: nat)
    ensures s == Digits(n) <==> s != [] && AllDigits(s) && DigitsValue(s) == n && (s[0] == '0' ==> |s| == 1)
  {
    hide Digits, DigitsValue;
    ValueOfDigits(n);
    NoLeadingZero(n);
    if s != [] && AllDigits(s) && (s[0] == '0' ==> |s| == 1) {
      PrintsAgain(s);
    }
  }

  lemma {:induction false} PrintsAgain(s: string)
    requires s != [] && AllDigits(s) && (s[0] == '0' ==> |s| == 1)
    ensures Digits(DigitsValue(s)) == s
  {
    hide Digits, DigitsValue;
    var before, last := s[..|s| - 1], s[|s| - 1] as int - '0' as int;
    ValueAppend(s);
    if before == [] {
      DigitsAppend(0, last);
    } else {
      PrintsAgain(before);
      NotZero(before);
      DigitsAppend(DigitsValue(before), last);
    }
    assert s == before + [s[|s| - 1]];
  }

  lemma ValueAppend(s: string)
    requires s != [] && AllDigits(s)
    ensures 0 <= s[|s| - 1] as int - '0' as int < 10
    ensures DigitsValue(s) == 10 * DigitsValue(s[..|s| - 1]) + (s[|s| - 1] as int - '0' as int)
    ensures |s| == 1 ==> DigitsValue(s[..|s| - 1]) == 0
  {
  }

  lemma DigitsAppend(n: nat, digit: nat)
    requires digit < 10
    ensures Digits(10 * n + digit) == (if n == 0 then [] else Digits(n)) + [('0' as int + digit) as char]
  {
  }

  lemma {:induction false} NoLeadingZero(n: nat)
    ensures Digits(n)[0] == '0' ==> n == 0 && |Digits(n)| == 1
  {
    if n >= 10 {
      NoLeadingZero(n / 10);
    }
  }

  lemma {:induction false} NotZero(s: string)
    requires s != [] && AllDigits(s) && s[0] != '0'
    ensures DigitsValue(s) > 0
  {
    if |s| > 1 {
      NotZero(s[..|s| - 1]);
    }
  }

  lemma ParsePrinted(n: nat)
    ensures ParseInt(Digits(n)) == Some(n)
  {
    hide Digits;
    ValueOfDigits(n);
    var s := Digits(n);
    assert '0' <= s[0] <= '9' && '0' <= s[|s| - 1] <= '9';
  }

  /** The numbers are the numerals between blanks. */
  lemma ParsesIffNumeral(s: string, x: int)
    ensures ParseInt(s) == Some(x) <==> exists a: string, t: string, b: string ::
      s == a + t + b && AllBlank(a) && AllBlank(b) && IsNumeral(t) && x == NumeralValue(t)
  {
    var a, b := StrippedParts(s);
    forall a: string, t: string, b: string | s == a + t + b && AllBlank(a) && AllBlank(b) && IsNumeral(t)
      ensures Stripped(s) == t
    {
      StripsBlanks(a, t, b);
    }
  }

  lemma {:induction false} StrippedParts(s: string) returns (a: string, b: string)
    ensures s == a + Stripped(s) + b && AllBlank(a) && AllBlank(b)
    decreases |s|
  {
    hide IsBlank;
    if s != [] && IsBlank(s[0]) {
      a, b := StrippedParts(s[1..]);
      var rest := Stripped(s[1..]);
      assert s == [s[0]] + (a + rest + b) == [s[0]] + a + rest + b;
      a := [s[0]] + a;
    } else if s != [] && IsBlank(s[|s| - 1]) {
      a, b := StrippedParts(s[..|s| - 1]);
      var rest := Stripped(s[..|s| - 1]);
      assert s == (a + rest + b) + [s[|s| - 1]] == a + rest + (b + [s[|s| - 1]]);
      b := b + [s[|s| - 1]];
    } else {
      a, b := [], [];
    }
  }

  lemma {:induction false} StripsBlanks(a: string, t: string, b: string)
    requires AllBlank(a) && AllBlank(b) && IsNumeral(t)
    ensures Stripped(a + t + b) == t
    decreases |a| + |b|
  {
    var s := a + t + b;
    assert !IsBlank(t[0]) && !IsBlank(t[|t| - 1]) by { NumeralEnds(t); }
    if a != [] {
      assert s[0] == a[0] && s[1..] == a[1..] + t + b;
      StripsBlanks(a[1..], t, b);
    } else if b != [] {
      assert s[0] == t[0];
      assert s[|s| - 1] == b[|b| - 1] && s[..|s| - 1] == a + t + b[..|b| - 1];
      StripsBlanks(a, t, b[..|b| - 1]);
    } else {
      assert s == t;
    }
  }

  lemma NumeralEnds(t: string)
    requires IsNumeral(t)
    ensures t != [] && !IsBlank(t[0]) && !IsBlank(t[|t| - 1])
  {
    var digits := Unsigned(t);
    var last := digits[|digits| - 1];
    assert last == t[|t| - 1] && '0' <= last <= '9';
  }

  lemma {:induction false} LastUnderscoreAt(s: string, i: nat)
    requires i < |s| && s[i] == '_' && '_' !in s[i + 1..]
    ensures LastUnderscore(s) == i
  {
    var j := LastUnderscore(s);
    var after := s[i + 1..];
    assert forall k :: i < k < |s| ==> s[k] == after[k - i - 1] && s[k] in after;
    var later := s[j + 1..];
    assert forall k :: j < k < |s| ==> s[k] == later[k - j - 1] && s[k] in later;
  }

  lemma SplitLast(left: string, right: string, times: nat)
    requires '_' !in right && times > 0
    ensures RSplit(left + "_" + right, times) == RSplit(left, times - 1) + [right]
    ensures times == 1 ==> RSplit(left + "_" + right, times) == [left, right]
  {
    var s, i := left + "_" + right, |left|;
    assert s[i] == '_' && s[i + 1..] == right && s[..i] == left;
    LastUnderscoreAt(s, i);
  }

  /** Parsing undoes printing, whatever the uid, underscores included. */
  lemma ParseUndoesPrint(uid: string, session: nat, index: nat)
    ensures RSplit(PrintKey(uid, session, index), 2) == [uid, Digits(session), Digits(index)]
    ensures ParseKey(PrintKey(uid, session, index)) == Some(Row(SessionKey(uid, Digits(session)), index))
  {
    hide RSplit, Digits, ParseInt;
    SplitLast(SessionKey(uid, Digits(session)), Digits(index), 2);
    SplitLast(uid, Digits(session), 1);
    ParsePrinted(index);
  }

  /** Different outputs have different keys, and sessions are told apart. */
  lemma KeysAreUnique(uid: string, session: nat, index: nat, uid': string, session': nat, index': nat)
    requires PrintKey(uid, session, index) == PrintKey(uid', session', index')
    ensures uid == uid' && session == session' && index == index'
  {
    ParseUndoesPrint(uid, session, index);
    ParseUndoesPrint(uid', session', index');
    assert [uid, Digits(session), Digits(index)][0] == uid && [uid', Digits(session'), Digits(index')][0] == uid';
    assert [uid, Digits(session), Digits(index)][1] == Digits(session);
    assert [uid', Digits(session'), Digits(index')][1] == Digits(session');
    ParsePrinted(session);
    ParsePrinted(session');
  }

  /** Two outputs of one session, and only those, share the session key. */
  lemma SessionsAreUnique(uid: string, session: nat, uid': string, session': nat)
    requires SessionKey(uid, Digits(session)) == SessionKey(uid', Digits(session'))
    ensures uid == uid' && session == session'
  {
    KeysAreUnique(uid, session, 0, uid', session', 0);
  }

  /** A prompt's status is kept under its bare uid, which is no output's key unless it parses as one. */
  lemma UidIsNoOutputKey(uid: string)
    requires ParseKey(uid).None?
    ensures forall u: string, session: nat, index: nat :: uid != PrintKey(u, session, index)
  {
    forall u: string, session: nat, index: nat ensures uid != PrintKey(u, session, index) {
      ParseUndoesPrint(u, session, index);
    }
  }
}
