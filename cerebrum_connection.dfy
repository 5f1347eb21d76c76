// Model of Javascript/Cerebrum/src/Connection.js.
//
// Cerebrum names nodes by strings "BIAS", "INPUT:<i>", "HIDDEN:<i>" and
// "OUTPUT:<i>", and keys connections by "<in>:<out>". The model names nodes by
// the datatype `NodeId` and keys connections by the pair `ConnKey(in, out)`;
// `Name` and `Id` give the strings, and `IdInjective` shows that two
// connections get the same string id exactly when they have the same
// endpoints, so keying dictionaries by the pair loses nothing.

module CerebrumConnection {

  datatype NodeId = Bias | Input(index: nat) | Hidden(index: nat) | Output(index: nat)

  datatype ConnKey = ConnKey(from: NodeId, to: NodeId)

  /** A phenotype connection: endpoints and weight (the id is derived). */
  datatype Connection = Connection(from: NodeId, to: NodeId, weight: real)

  /** The one-argument default of the constructor: weight 1. */
  function NewConnection(inId: NodeId, outId: NodeId): (c: Connection)
    ensures c.from == inId && c.to == outId && c.weight == 1.0
  {
    Connection(inId, outId, 1.0)
  }

  function Key(c: Connection): (k: ConnKey)
    ensures k.from == c.from && k.to == c.to
  {
    ConnKey(c.from, c.to)
  }

  // ---------------------------------------------------------------------
  // Decimal rendering of indices, as JavaScript template strings print them.

  function DigitChar(d: nat): (c: char)
    requires d < 10
    ensures '0' <= c <= '9'
  {
    "0123456789"[d]
  }

  function DigitValue(c: char): nat
  {
    if '0' <= c <= '9' then (c as int - '0' as int) as nat else 0
  }

  predicate IsDigits(s: string)
  {
    forall i :: 0 <= i < |s| ==> '0' <= s[i] <= '9'
  }

  /** The shortest decimal numeral of `n`. */
  function Digits(n: nat): (s: string)
    ensures |s| >= 1 && IsDigits(s)
  {
    if n < 10 then [DigitChar(n)] else Digits(n / 10) + [DigitChar(n % 10)]
  }

  /** Value of a string of decimal digits. */
  function Value(s: string): nat
  {
    if s == [] then 0 else 10 * Value(s[..|s| - 1]) + DigitValue(s[|s| - 1])
  }

  lemma {:induction false} ValueOfDigits(n: nat)
    ensures Value(Digits(n)) == n
  {
    if n < 10 {
      assert Digits(n)[..0] == [];
    } else {
      var s := Digits(n);
      assert s[..|s| - 1] == Digits(n / 10);
      ValueOfDigits(n / 10);
    }
  }

  lemma DigitsInjective(m: nat, n: nat)
    requires Digits(m) == Digits(n)
    ensures m == n
  {
    ValueOfDigits(m);
    ValueOfDigits(n);
  }

  // ---------------------------------------------------------------------
  // Node names and connection ids.

  function RoleName(a: NodeId): string
  {
    match a
    case Bias => "BIAS"
    case Input(_) => "INPUT"
    case Hidden(_) => "HIDDEN"
    case Output(_) => "OUTPUT"
  }

  /** The node's string id: "BIAS", or the role, a colon and the index. */
  function Name(a: NodeId): (s: string)
    ensures ':' in s <==> !a.Bias?
  {
    if a.Bias? then RoleName(a)
    else
      assert ':' !in Digits(a.index);
      RoleName(a) + ":" + Digits(a.index)
  }

  /** The connection id `${in}:${out}` of Connection.js line 8. */
  function Id(from: NodeId, to: NodeId): string
  {
    Name(from) + ":" + Name(to)
  }

  lemma ColonAfter(x: string, y: string)
    ensures (x + ":" + y)[|x|] == ':'
    ensures (x + ":" + y)[..|x|] == x
  {
  }

  /** Two strings that both start with a colon-free part followed by a colon
      split the same way. */
  lemma {:induction false} SplitAtFirstColon(x: string, y: string, x': string, y': string)
    requires ':' !in x && ':' !in x'
    requires x + ":" + y == x' + ":" + y'
    ensures x == x' && y == y'
  {
    var s := x + ":" + y;
    ColonAfter(x, y);
    ColonAfter(x', y');
    assert x == s[..|x|] == x';
    assert y == s[|x| + 1..] == y';
  }

  lemma {:induction false} NameInjective(a: NodeId, b: NodeId)
    requires Name(a) == Name(b)
    ensures a == b
  {
    if a.Bias? || b.Bias? {
      assert ':' !in Name(a) && ':' !in Name(b);
    } else {
      SplitAtFirstColon(RoleName(a), Digits(a.index), RoleName(b), Digits(b.index));
      DigitsInjective(a.index, b.index);
    }
  }

  /** What follows the role name and its colon in the id of a connection. */
  function IdTail(a: NodeId, b: NodeId): string
  {
    if a.Bias? then Name(b) else Digits(a.index) + ":" + Name(b)
  }

  lemma RoleNameNoColon(a: NodeId)
    ensures ':' !in RoleName(a)
  {
    var r := RoleName(a);
    forall k | 0 <= k < |r|
      ensures r[k] != ':'
    {
    }
  }

  /** Every connection id is the source's role name, a colon, and then the
      source's index (if any), a colon and the target's name. */
  lemma IdOfRole(a: NodeId, b: NodeId)
    ensures ':' !in RoleName(a)
    ensures Id(a, b) == RoleName(a) + ":" + IdTail(a, b)
  {
    RoleNameNoColon(a);
    if !a.Bias? {
      var r, n := RoleName(a), Digits(a.index);
      assert Name(a) == r + ":" + n;
      assert (r + ":" + n) + ":" + Name(b) == r + ":" + (n + ":" + Name(b));
    }
  }

  lemma RoleNameInjective(a: NodeId, c: NodeId)
    requires RoleName(a) == RoleName(c)
    ensures a.Bias? == c.Bias? && a.Input? == c.Input? && a.Hidden? == c.Hidden? && a.Output? == c.Output?
  {
    assert |RoleName(a)| == |RoleName(c)|;
    assert RoleName(a)[0] == RoleName(c)[0];
  }

  lemma {:induction false} IdDeterminesSource(a: NodeId, b: NodeId, c: NodeId, d: NodeId)
    requires Id(a, b) == Id(c, d)
    ensures a == c && Name(b) == Name(d)
  {
    IdOfRole(a, b);
    IdOfRole(c, d);
    SplitAtFirstColon(RoleName(a), IdTail(a, b), RoleName(c), IdTail(c, d));
    RoleNameInjective(a, c);
    if !a.Bias? {
      assert ':' !in Digits(a.index) && ':' !in Digits(c.index);
      SplitAtFirstColon(Digits(a.index), Name(b), Digits(c.index), Name(d));
      DigitsInjective(a.index, c.index);
    }
  }

  /** Connection.js line 8: the string id determines the endpoints, and equal
      endpoints give equal ids. */
  lemma {:induction false} IdInjective(a: NodeId, b: NodeId, c: NodeId, d: NodeId)
    ensures Id(a, b) == Id(c, d) <==> a == c && b == d
  {
    if Id(a, b) == Id(c, d) {
      IdDeterminesSource(a, b, c, d);
      NameInjective(b, d);
    }
  }
}
