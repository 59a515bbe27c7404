/** Order nodes, their signatures and the comparison that orders the heaps. */
module Nodes {
  import opened Collections
  import opened Orders

  /** Identity of an order; `Text` is the key the source formats from it. */
  datatype Sig = Sig(orderId: nat, user: Pubkey)

  datatype Node = Node(nodeType: NodeType, order: Order, user: Pubkey) {
    function Key(): Sig {
      Sig(order.orderId, user)
    }

    function SortValue(): int {
      match nodeType
      case TakingLimit => order.slot
      case RestingLimit => order.price
      case FloatingLimit => order.oraclePriceOffset
      case Market => order.slot
      case Trigger => order.triggerPrice
    }

    function WithOrder(o: Order): Node {
      this.(order := o)
    }

    function WithFilled(amount: nat): Node {
      this.(order := order.(filled := amount))
    }
  }

  datatype SortDirection = Ascending | Descending

  datatype DirectionalNode = DirectionalNode(node: Node, dir: SortDirection)

  // ----- heap order -----

  /** -1, 0 or 1; the direction of the receiver decides, as in the source. */
  function Cmp(a: DirectionalNode, b: DirectionalNode): int {
    var byValue := Compare(a.node.SortValue(), b.node.SortValue());
    var c := if byValue == 0 then Compare(a.node.order.slot, b.node.order.slot) else byValue;
    if a.dir == Ascending then -c else c
  }

  function Compare(x: int, y: int): int {
    if x < y then -1 else if x == y then 0 else 1
  }

  /** Among nodes of one direction `Cmp` is a total preorder. */
  lemma CmpIsTotalPreorder(a: DirectionalNode, b: DirectionalNode, c: DirectionalNode)
    requires a.dir == b.dir == c.dir
    ensures Cmp(a, a) == 0
    ensures Cmp(a, b) == -Cmp(b, a)
    ensures Cmp(a, b) >= 0 && Cmp(b, c) >= 0 ==> Cmp(a, c) >= 0
  {}

  /** Across directions it is not even antisymmetric, so a heap must be uniform. */
  lemma CmpNeedsOneDirection(a: Node, b: Node)
    requires a.SortValue() < b.SortValue()
    ensures Cmp(DirectionalNode(a, Ascending), DirectionalNode(b, Descending)) > 0
    ensures Cmp(DirectionalNode(b, Descending), DirectionalNode(a, Ascending)) > 0
  {}

  // ----- signatures -----

  /** The text of a signature: the order id in decimal, a dash, the account. */
  function Text(s: Sig): string {
    Decimal(s.orderId) + "-" + s.user
  }

  function Decimal(n: nat): (r: string)
    ensures r != [] && forall c :: c in r ==> '0' <= c <= '9'
  {
    if n < 10 then [Digit(n)] else Decimal(n / 10) + [Digit(n % 10)]
  }

  function Digit(d: nat): (c: char)
    requires d < 10
    ensures '0' <= c <= '9' && c as int == d + 48
  {
    (d + 48) as char
  }

  lemma {:induction false} DecimalInjective(m: nat, n: nat)
    requires Decimal(m) == Decimal(n)
    ensures m == n
  {
    var s, t := Decimal(m), Decimal(n);
    assert m >= 10 ==> s[..|s| - 1] == Decimal(m / 10) && |s| >= 2 && s[|s| - 1] == Digit(m % 10);
    assert n >= 10 ==> t[..|t| - 1] == Decimal(n / 10) && |t| >= 2 && t[|t| - 1] == Digit(n % 10);
    if m >= 10 {
      DecimalInjective(m / 10, n / 10);
    } else {
      assert s[0] == Digit(m);
    }
  }

  /** The first dash of a text ends the decimal part. */
  lemma DigitsEndAtDash(x: string, y: string, text: string)
    requires |x| < |text| && text[|x|] == '-'
    requires y <= text && forall c :: c in y ==> '0' <= c <= '9'
    ensures |y| <= |x|
  {
    assert forall i :: 0 <= i < |y| ==> text[i] == y[i] && y[i] in y;
  }

  /** Formatting loses nothing: two orders share a key only if they share id and account. */
  lemma TextInjective(a: Sig, b: Sig)
    ensures Text(a) == Text(b) <==> a == b
  {
    if Text(a) == Text(b) {
      var x, y := Decimal(a.orderId), Decimal(b.orderId);
      DigitsEndAtDash(x, y, Text(a));
      DigitsEndAtDash(y, x, Text(a));
      assert Text(a)[..|x|] == x && Text(b)[..|y|] == y;
      assert Text(a)[|x| + 1..] == a.user && Text(b)[|y| + 1..] == b.user;
      DecimalInjective(a.orderId, b.orderId);
    }
  }
}
