// Identifiers of the form "<prefix>-<decimal>": event IDs (producer ID and log
// sequence) and trade IDs (symbol and trade sequence).

module EventIds {

  // Decimal form of a counter, as strconv.FormatInt(n, 10) writes it for n >= 0.
  function Decimal(n: nat): (s: string)
    ensures s != [] && (|s| > 1 ==> s[0] != '0')
    ensures forall i :: 0 <= i < |s| ==> '0' <= s[i] <= '9'
  {
    if n < 10 then [Digit(n)] else Decimal(n / 10) + [Digit(n % 10)]
  }

  function Digit(d: nat): (c: char)
    requires d < 10
    ensures '0' <= c <= '9'
  {
    '0' + d as char
  }

  function Join(prefix: string, n: nat): string {
    prefix + "-" + Decimal(n)
  }

  // Reads a decimal string back; used only to show that Decimal loses nothing.
  function Parse(s: string): nat
    requires forall i :: 0 <= i < |s| ==> '0' <= s[i] <= '9'
  {
    if s == [] then 0 else 10 * Parse(s[..|s| - 1]) + (s[|s| - 1] as int - '0' as int)
  }

  lemma {:induction false} ParseDecimal(n: nat)
    ensures Parse(Decimal(n)) == n
  {
    var s := Decimal(n);
    if n < 10 {
      assert s[..|s| - 1] == [];
    } else {
      ParseDecimal(n / 10);
      assert s[..|s| - 1] == Decimal(n / 10);
    }
  }

  // The decimal part has no dash, so the last dash of an identifier is the separator.
  lemma LastDash(p: string, n: nat)
    ensures Join(p, n)[..|p|] == p && Join(p, n)[|p|] == '-'
    ensures forall k :: |p| < k < |Join(p, n)| ==> Join(p, n)[k] != '-'
  {
    forall k | |p| < k < |Join(p, n)|
      ensures Join(p, n)[k] != '-'
    {
      assert Join(p, n)[k] == Decimal(n)[k - |p| - 1];
    }
  }

  // An identifier determines both of its halves, whatever the prefixes contain.
  lemma {:induction false} JoinInjective(p: string, m: nat, q: string, n: nat)
    requires Join(p, m) == Join(q, n)
    ensures p == q && m == n
  {
    LastDash(p, m);
    LastDash(q, n);
    assert |p| == |q|;
    assert p == Join(p, m)[..|p|] == q;
    assert Decimal(m) == Join(p, m)[|p| + 1..] == Join(q, n)[|q| + 1..] == Decimal(n);
    ParseDecimal(m);
    ParseDecimal(n);
  }
}
