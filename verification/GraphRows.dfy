/** Graph rows and addresses (graph_records.py), decimal numbers and Q IDs. */
module GraphRows {
  import opened Wrappers

  datatype Address = Address(source: nat, relation: string, outgoing: bool)

  datatype TargetKind = Entity | Literal

  datatype GraphRow = GraphRow(source: nat, relation: string, outgoing: bool, kind: TargetKind,
                               target: string, qualifiers: seq<(string, string)>, provenance: string)
  {
    function Addr(): Address { Address(source, relation, outgoing) }
  }

  /** A fact's stable identifier: a digest of the whole row, left uninterpreted. */
  type FactId = string

  function Digit(d: nat): char
    requires d < 10
  {
    '0' + d as char
  }

  /** Decimal, without leading zeros. */
  function Print(n: nat): (s: string)
    ensures s != []
  {
    if n < 10 then [Digit(n)] else Print(n / 10) + [Digit(n % 10)]
  }

  /** The value of a string of digits. */
  function Digits(s: string): Option<nat> {
    if s == [] then Some(0)
    else
      var c := s[|s| - 1];
      match Digits(s[..|s| - 1])
      case None => None
      case Some(n) => if '0' <= c <= '9' then Some(10 * n + (c as int - '0' as int)) else None
  }

  /** The number a string is the canonical decimal of, as int() and then the comparison with
      str() accept it. */
  function Number(s: string): Option<nat> {
    var n := Digits(s);
    if n.Some? && Print(n.value) == s then n else None
  }

  lemma {:induction false} PrintReads(n: nat)
    ensures Digits(Print(n)) == Some(n)
  {
    if n < 10 {
      assert Print(n)[..0] == [];
    } else {
      PrintReads(n / 10);
      assert Print(n)[..|Print(n)| - 1] == Print(n / 10);
    }
  }

  /** Printing and reading are inverse: a string has at most one number, and every number one string. */
  lemma NumberPrints(n: nat, s: string)
    ensures Number(s) == Some(n) <==> s == Print(n)
  {
    PrintReads(n);
  }

  function QId(n: nat): string { "Q" + Print(n) }

  function QNumber(s: string): Option<nat> {
    if s == [] || s[0] != 'Q' then None else Number(s[1..])
  }

  lemma QIdReads(n: nat)
    ensures QNumber(QId(n)) == Some(n)
  {
    assert QId(n)[1..] == Print(n);
    NumberPrints(n, Print(n));
  }

  lemma QIdInjective(m: nat, n: nat)
    ensures QId(m) == QId(n) <==> m == n
  {
    QIdReads(m);
    QIdReads(n);
  }
}
