/**
 * Rows of the rental table and the session key `str(date) + "_" + str(hr)`
 * that the RFM recap groups them by.
 */
module Sessions {

  /** One rental event: a day number, an hour-of-day and the rental total. */
  datatype Row = Row(date: int, hr: int, total: int)

  /** The character that joins the two halves of a session key. */
  const Separator: char := '_'

  predicate IsDigit(c: char) {
    '0' <= c <= '9'
  }

  function Digit(d: nat): (c: char)
    requires d < 10
    ensures IsDigit(c)
  {
    (48 + d) as char
  }

  /** Decimal text of a natural number, most significant digit first, no leading zeros. */
  function NatText(n: nat): (s: string)
    ensures |s| >= 1
    ensures forall i :: 0 <= i < |s| ==> IsDigit(s[i])
    ensures n < 10 <==> |s| == 1
    decreases n
  {
    if n < 10 then [Digit(n)] else NatText(n / 10) + [Digit(n % 10)]
  }

  /** Python's `str` of an integer: an optional minus sign, then the decimal digits. */
  function IntText(i: int): string {
    if i < 0 then "-" + NatText(-i) else NatText(i)
  }

  lemma {:induction false} NatTextInjective(m: nat, n: nat)
    ensures NatText(m) == NatText(n) <==> m == n
  {
    if NatText(m) == NatText(n) && m >= 10 && n >= 10 {
      var sm, sn := NatText(m / 10), NatText(n / 10);
      assert NatText(m) == sm + [Digit(m % 10)];
      assert NatText(n) == sn + [Digit(n % 10)];
      assert |sm| == |sn|;
      assert sm == NatText(m)[..|sm|] == NatText(n)[..|sn|] == sn;
      assert Digit(m % 10) == NatText(m)[|sm|] == Digit(n % 10);
      NatTextInjective(m / 10, n / 10);
    }
  }

  /** The text of an integer never contains the separator, so a session key splits uniquely. */
  lemma IntTextHasNoSeparator(i: int)
    ensures Separator !in IntText(i)
  {
    if i < 0 {
      assert forall k :: 1 <= k < |IntText(i)| ==> IntText(i)[k] == NatText(-i)[k - 1];
    }
  }

  lemma IntTextInjective(i: int, j: int)
    ensures IntText(i) == IntText(j) <==> i == j
  {
    // the first character tells the sign apart
    assert IntText(i)[0] == '-' <==> i < 0;
    assert IntText(j)[0] == '-' <==> j < 0;
    if IntText(i) == IntText(j) {
      if i < 0 && j < 0 {
        assert NatText(-i) == IntText(i)[1..] == IntText(j)[1..] == NatText(-j);
        NatTextInjective(-i, -j);
      } else if i >= 0 && j >= 0 {
        NatTextInjective(i, j);
      }
    }
  }

  /** The derived `session_id` of a row, dashboard.py line 18. */
  function SessionId(r: Row): string {
    IntText(r.date) + [Separator] + IntText(r.hr)
  }

  lemma SplitAtSeparator(a: string, b: string, c: string, d: string)
    requires Separator !in a && Separator !in c
    requires a + [Separator] + b == c + [Separator] + d
    ensures a == c && b == d
  {
    var s := a + [Separator] + b;
    assert s[|a|] == Separator && s[|c|] == Separator;
    assert |a| == |c|;
    assert a == s[..|a|] == c;
    assert b == s[|a| + 1..] == d;
  }

  /** Two rows share a session exactly when they agree on date and hour. */
  lemma SessionIdInjective(x: Row, y: Row)
    ensures SessionId(x) == SessionId(y) <==> x.date == y.date && x.hr == y.hr
  {
    if SessionId(x) == SessionId(y) {
      IntTextHasNoSeparator(x.date);
      IntTextHasNoSeparator(y.date);
      SplitAtSeparator(IntText(x.date), IntText(x.hr), IntText(y.date), IntText(y.hr));
      IntTextInjective(x.date, y.date);
      IntTextInjective(x.hr, y.hr);
    }
  }

  /** The `session_id` column that the recap adds to the table, one entry per row. */
  function SessionColumn(rows: seq<Row>): (column: seq<string>)
    ensures |column| == |rows|
  {
    seq(|rows|, i requires 0 <= i < |rows| => SessionId(rows[i]))
  }

  lemma SessionColumnShared(rows: seq<Row>, i: nat, j: nat)
    requires i < |rows| && j < |rows|
    ensures SessionColumn(rows)[i] == SessionColumn(rows)[j]
            <==> rows[i].date == rows[j].date && rows[i].hr == rows[j].hr
  {
    SessionIdInjective(rows[i], rows[j]);
  }
}
