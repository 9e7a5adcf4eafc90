/** SQL text as the jobs core builds it: bound values, queries with PostgreSQL
    positional parameters (`$1`, `$2`, ...), the decimal rendering used to
    number them, and `Array.prototype.join`. */
module Sql {

  /** A value bound to a positional parameter. A JavaScript `undefined` is sent
      by the driver as SQL NULL, so it is `Null` here too. */
  datatype SqlValue = Null | Int(i: int) | Text(s: string)

  /** What is handed to `db.query`: the SQL text and its parameter list. */
  datatype Query = Query(text: string, params: seq<SqlValue>)

  predicate IsDigit(c: char) {
    '0' <= c <= '9'
  }

  predicate AllDigits(s: string) {
    forall i :: 0 <= i < |s| ==> IsDigit(s[i])
  }

  /** The value of a decimal digit (0 for any other character). */
  function DigitValue(c: char): nat {
    if IsDigit(c) then c as int - '0' as int else 0
  }

  function DigitChar(d: nat): char
    requires d < 10
  {
    ('0' as int + d) as char
  }

  /** The number a string of decimal digits denotes, most significant digit first. */
  function DigitsValue(s: string): nat
    decreases |s|
  {
    if s == [] then 0 else 10 * DigitsValue(s[..|s| - 1]) + DigitValue(s[|s| - 1])
  }

  /** Decimal rendering of a natural number, as JavaScript's `String(n)`. */
  function NatToString(n: nat): string
    decreases n
  {
    if n < 10 then [DigitChar(n)] else NatToString(n / 10) + [DigitChar(n % 10)]
  }

  /** The rendering is non-empty, made of digits only, has no leading zero,
      and denotes `n`. */
  lemma {:induction false} NatToStringDenotes(n: nat)
    ensures var s := NatToString(n);
      |s| > 0 && AllDigits(s) && (s[0] == '0' ==> s == "0") && DigitsValue(s) == n
    decreases n
  {
    if n >= 10 {
      NatToStringDenotes(n / 10);
      var s := NatToString(n);
      assert s[..|s| - 1] == NatToString(n / 10);
    }
  }

  /** Decimal rendering of an integer, as a template literal `${id}` prints it. */
  function IntToString(i: int): string {
    if i < 0 then "-" + NatToString(-i) else NatToString(i)
  }

  /** The integer an optional minus sign and decimal digits denote. */
  function SignedValue(s: string): int {
    if |s| > 0 && s[0] == '-' then -(DigitsValue(s[1..]) as int) else DigitsValue(s)
  }

  /** The rendering of an integer starts with a minus sign exactly when it is
      negative, the rest is digits without a leading zero, and it reads back
      as the same integer. */
  lemma IntToStringDenotes(i: int)
    ensures var s := IntToString(i);
      |s| > 0 && (s[0] == '-' <==> i < 0)
      && SignedValue(s) == i
      && (var digits := if i < 0 then s[1..] else s;
          |digits| > 0 && AllDigits(digits) && (digits[0] == '0' ==> digits == "0"))
  {
    if i < 0 {
      NatToStringDenotes(-i);
      assert IntToString(i)[1..] == NatToString(-i);
    } else {
      NatToStringDenotes(i);
    }
  }

  /** The reference to positional parameter `k`, as the source writes it
      with `"$" + k`. */
  function Param(k: nat): string {
    "$" + NatToString(k)
  }

  /** `parts.join(sep)` */
  function Join(parts: seq<string>, sep: string): string
    decreases |parts|
  {
    if |parts| == 0 then ""
    else if |parts| == 1 then parts[0]
    else parts[0] + sep + Join(parts[1..], sep)
  }

  /** Joining a non-empty list: its first part, then the separator and the
      rest when there is a rest. */
  lemma JoinCons(head: string, tail: seq<string>, sep: string)
    ensures Join([head] + tail, sep) == if tail == [] then head else head + (sep + Join(tail, sep))
  {
    assert ([head] + tail)[1..] == tail;
  }

  /** Joining element by element, as `Array.prototype.join` does: what is
      joined so far, then the separator and the next element. */
  lemma {:induction false} JoinSnoc(parts: seq<string>, last: string, sep: string)
    requires parts != []
    ensures Join(parts + [last], sep) == Join(parts, sep) + sep + last
    decreases |parts|
  {
    assert (parts + [last])[0] == parts[0];
    if |parts| == 1 {
      assert (parts + [last])[1..] == [last];
    } else {
      assert (parts + [last])[1..] == parts[1..] + [last];
      JoinSnoc(parts[1..], last, sep);
    }
  }

  /** Parts and a separator without `$` join into a text without `$`. */
  lemma {:induction false} JoinDollarFree(parts: seq<string>, sep: string)
    requires '$' !in sep
    requires forall i :: 0 <= i < |parts| ==> '$' !in parts[i]
    ensures '$' !in Join(parts, sep)
    decreases |parts|
  {
    if |parts| > 1 {
      JoinDollarFree(parts[1..], sep);
    }
  }

  /** Length of the longest prefix of `s` made of digits. */
  function DigitRun(s: string): (n: nat)
    ensures n <= |s|
    decreases |s|
  {
    if s == [] || !IsDigit(s[0]) then 0 else 1 + DigitRun(s[1..])
  }

  /** The run is made of digits and is followed by a non-digit or the end. */
  lemma {:induction false} DigitRunMaximal(s: string)
    ensures forall i :: 0 <= i < DigitRun(s) ==> IsDigit(s[i])
    ensures DigitRun(s) < |s| ==> !IsDigit(s[DigitRun(s)])
    decreases |s|
  {
    if s != [] && IsDigit(s[0]) {
      DigitRunMaximal(s[1..]);
      assert forall i :: 1 <= i < DigitRun(s) ==> s[i] == s[1..][i - 1];
    }
  }

  /** `s` starts with a parameter reference: `$` and a digit. */
  predicate StartsParam(s: string) {
    |s| > 1 && s[0] == '$' && IsDigit(s[1])
  }

  /** Length of the parameter reference `s` starts with: `$` and all its digits. */
  function ParamLength(s: string): (n: nat)
    requires StartsParam(s)
    ensures 2 <= n <= |s|
  {
    1 + DigitRun(s[1..])
  }

  /** The positional parameter numbers referenced by a SQL text, in order of
      appearance: every `$` followed by a maximal run of digits. This is a
      lexical scan: it does not skip quoted identifiers, string literals or
      comments, where PostgreSQL sees no parameter. The jobs queries contain
      no string literal or comment, and their quoted identifiers contain no
      `$`, so on them it finds exactly what PostgreSQL binds. */
  function Placeholders(s: string): seq<nat>
    decreases |s|
  {
    if |s| == 0 then []
    else if StartsParam(s) then
      [DigitsValue(s[1..ParamLength(s)])] + Placeholders(s[ParamLength(s)..])
    else Placeholders(s[1..])
  }

  /** The numbers first, first + 1, ..., first + count - 1. */
  function Positions(first: nat, count: nat): (r: seq<nat>)
    decreases count
  {
    if count == 0 then [] else [first] + Positions(first + 1, count - 1)
  }

  /** The text references exactly `$1`, ..., `$n`, in that order, where `n` is
      the number of parameters: one bound value per placeholder and none unused. */
  predicate WellNumbered(q: Query) {
    Placeholders(q.text) == Positions(1, |q.params|)
  }

  predicate StartsWithNonDigit(s: string) {
    s == [] || !IsDigit(s[0])
  }

  /** Appending a text that does not start with a digit cannot lengthen a run of digits. */
  lemma DigitRunAppend(x: string, b: string)
    requires StartsWithNonDigit(b)
    ensures DigitRun(x + b) == DigitRun(x)
  {
    DigitRunMaximal(x);
    DigitRunMaximal(x + b);
    assert forall i :: 0 <= i < |x| ==> (x + b)[i] == x[i];
    assert b != [] ==> (x + b)[|x|] == b[0];
  }

  /** Text without `$` references no parameter and cannot start a reference in
      what follows it. */
  lemma {:induction false} SkipNoDollar(p: string, s: string)
    requires '$' !in p
    ensures Placeholders(p + s) == Placeholders(s)
    decreases |p|
  {
    if p != [] {
      assert p[0] in p;
      assert (p + s)[0] == p[0] != '$';
      assert (p + s)[1..] == p[1..] + s;
      SkipNoDollar(p[1..], s);
      assert Placeholders(p + s) == Placeholders((p + s)[1..]);
    } else {
      assert p + s == s;
    }
  }

  lemma NoDollar(p: string)
    requires '$' !in p
    ensures Placeholders(p) == []
  {
    SkipNoDollar(p, "");
    assert p + "" == p;
  }

  /** References split at a boundary where the right-hand text does not start
      with a digit. */
  lemma {:induction false} PlaceholdersAppend(a: string, b: string)
    requires StartsWithNonDigit(b)
    ensures Placeholders(a + b) == Placeholders(a) + Placeholders(b)
    decreases |a|
  {
    if a == [] {
      assert a + b == b;
    } else if StartsParam(a) {
      var n := ParamLength(a);
      assert (a + b)[1..] == a[1..] + b;
      DigitRunAppend(a[1..], b);
      assert StartsParam(a + b) && ParamLength(a + b) == n;
      assert (a + b)[1..n] == a[1..n];
      assert (a + b)[n..] == a[n..] + b;
      PlaceholdersAppend(a[n..], b);
    } else if a == "$" {
      assert !StartsParam(a + b);
      assert (a + b)[1..] == b;
    } else {
      assert !StartsParam(a + b);
      assert (a + b)[1..] == a[1..] + b;
      PlaceholdersAppend(a[1..], b);
    }
  }

  /** A rendered reference `$k` is read back as `k`. */
  lemma ParamToken(k: nat, rest: string)
    requires StartsWithNonDigit(rest)
    ensures Placeholders(Param(k) + rest) == [k] + Placeholders(rest)
  {
    var d := NatToString(k);
    NatToStringDenotes(k);
    var s := Param(k) + rest;
    assert s == "$" + (d + rest);
    assert s[1..] == d + rest;
    DigitRunAppend(d, rest);
    DigitRunMaximal(d);
    assert StartsParam(s) && ParamLength(s) == 1 + |d|;
    assert s[1..1 + |d|] == d;
    assert s[1 + |d|..] == rest;
  }

  /** Fixed text without `$` around a fragment adds no reference to it. */
  lemma Framed(head: string, body: string, tail: string)
    requires '$' !in head && '$' !in tail && StartsWithNonDigit(tail)
    ensures Placeholders(head + (body + tail)) == Placeholders(body)
  {
    SkipNoDollar(head, body + tail);
    PlaceholdersAppend(body, tail);
    NoDollar(tail);
  }

  /** Text without `$` followed by a reference `$k` references only `k`. */
  lemma LabelledParam(prefix: string, k: nat, rest: string)
    requires '$' !in prefix && StartsWithNonDigit(rest)
    ensures Placeholders(prefix + Param(k) + rest) == [k] + Placeholders(rest)
  {
    assert prefix + Param(k) + rest == prefix + (Param(k) + rest);
    SkipNoDollar(prefix, Param(k) + rest);
    ParamToken(k, rest);
  }

  /** A reference followed by a separator without `$`. */
  lemma ParamThen(k: nat, sep: string, rest: string)
    requires '$' !in sep && sep != [] && !IsDigit(sep[0])
    ensures Placeholders(Param(k) + (sep + rest)) == [k] + Placeholders(rest)
  {
    ParamToken(k, sep + rest);
    SkipNoDollar(sep, rest);
  }

  /** A text that splices `clause` and then one reference `$k` into fixed
      SQL without `$` references the clause's parameters, then `k`. */
  lemma ClauseThenParam(head: string, clause: string, mid: string, k: nat, tail: string)
    requires '$' !in head && '$' !in mid && '$' !in tail
    requires mid != [] && !IsDigit(mid[0]) && StartsWithNonDigit(tail)
    ensures Placeholders(head + (clause + (mid + (Param(k) + tail)))) == Placeholders(clause) + [k]
  {
    SkipNoDollar(head, clause + (mid + (Param(k) + tail)));
    PlaceholdersAppend(clause, mid + (Param(k) + tail));
    SkipNoDollar(mid, Param(k) + tail);
    ParamToken(k, tail);
    NoDollar(tail);
  }

  lemma {:induction false} PositionsAppend(first: nat, m: nat, n: nat)
    ensures Positions(first, m) + Positions(first + m, n) == Positions(first, m + n)
    decreases m
  {
    if m > 0 {
      PositionsAppend(first + 1, m - 1, n);
    }
  }

  lemma {:induction false} PositionsSnoc(first: nat, count: nat)
    ensures Positions(first, count) + [first + count] == Positions(first, count + 1)
    decreases count
  {
    if count > 0 {
      PositionsSnoc(first + 1, count - 1);
    }
  }
}
