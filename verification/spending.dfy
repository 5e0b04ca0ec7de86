/** Who can spend the escrow output: the aggregated key of both traders, or one leaf of the tree. */
module SpendingRights {

  datatype Key = Maker | Taker | Coordinator

  datatype Policy = Pk(key: Key) | After(height: nat) | And(left: Policy, right: Policy)

  datatype Tree = Leaf(policy: Policy) | Node(first: Tree, second: Tree)

  /** `after(n)` is met by a transaction whose lock height is at least n. */
  predicate Meets(policy: Policy, signers: set<Key>, lockHeight: nat) {
    match policy
    case Pk(key) => key in signers
    case After(height) => lockHeight >= height
    case And(left, right) => Meets(left, signers, lockHeight) && Meets(right, signers, lockHeight)
  }

  function Leaves(tree: Tree): set<Policy> {
    match tree
    case Leaf(policy) => {policy}
    case Node(first, second) => Leaves(first) + Leaves(second)
  }

  predicate Opens(tree: Tree, signers: set<Key>, lockHeight: nat) {
    match tree
    case Leaf(policy) => Meets(policy, signers, lockHeight)
    case Node(first, second) => Opens(first, signers, lockHeight) || Opens(second, signers, lockHeight)
  }

  const POLICY_A := And(Pk(Maker), Pk(Coordinator))
  const POLICY_B := And(Pk(Taker), Pk(Coordinator))
  const POLICY_C := And(Pk(Maker), After(12228))
  const POLICY_D := And(And(Pk(Maker), Pk(Taker)), After(2048))

  const ESCROW_TREE := Node(Node(Leaf(POLICY_A), Leaf(POLICY_B)), Node(Leaf(POLICY_D), Leaf(POLICY_C)))

  /** Key path with the aggregated key of maker and taker, or script path through one leaf. */
  predicate Spendable(tree: Tree, signers: set<Key>, lockHeight: nat) {
    {Maker, Taker} <= signers || Opens(tree, signers, lockHeight)
  }

  ghost predicate TwoOf(signers: set<Key>, k: Key, l: Key) {
    k in signers && l in signers && k != l
  }

  lemma EscrowLeaves(signers: set<Key>, lockHeight: nat)
    ensures Opens(ESCROW_TREE, signers, lockHeight) <==>
      || (Maker in signers && Coordinator in signers)
      || (Taker in signers && Coordinator in signers)
      || (Maker in signers && lockHeight >= 12228)
      || (Maker in signers && Taker in signers && lockHeight >= 2048)
  {
    OpensByLeaf(ESCROW_TREE, signers, lockHeight);
    assert Leaves(Node(Leaf(POLICY_A), Leaf(POLICY_B))) == {POLICY_A, POLICY_B};
    assert Leaves(Node(Leaf(POLICY_D), Leaf(POLICY_C))) == {POLICY_D, POLICY_C};
    assert Leaves(ESCROW_TREE) == {POLICY_A, POLICY_B, POLICY_C, POLICY_D};
    assert Meets(And(Pk(Maker), Pk(Taker)), signers, lockHeight) <==> Maker in signers && Taker in signers;
    assert Meets(POLICY_A, signers, lockHeight) <==> Maker in signers && Coordinator in signers;
    assert Meets(POLICY_B, signers, lockHeight) <==> Taker in signers && Coordinator in signers;
    assert Meets(POLICY_C, signers, lockHeight) <==> Maker in signers && lockHeight >= 12228;
    assert Meets(POLICY_D, signers, lockHeight) <==> Maker in signers && Taker in signers && lockHeight >= 2048;
  }

  /** The escrow can be spent exactly by any two of the three parties, or by the maker alone from
      lock height 12228 on. */
  lemma EscrowRights(signers: set<Key>, lockHeight: nat)
    ensures Spendable(ESCROW_TREE, signers, lockHeight) <==>
      (exists k, l :: TwoOf(signers, k, l)) || (Maker in signers && lockHeight >= 12228)
  {
    EscrowLeaves(signers, lockHeight);
    assert Maker in signers && Taker in signers ==> TwoOf(signers, Maker, Taker);
    assert Maker in signers && Coordinator in signers ==> TwoOf(signers, Maker, Coordinator);
    assert Taker in signers && Coordinator in signers ==> TwoOf(signers, Taker, Coordinator);
  }

  /** A tree opens through some leaf, whatever its shape. */
  lemma {:induction false} OpensByLeaf(tree: Tree, signers: set<Key>, lockHeight: nat)
    ensures Opens(tree, signers, lockHeight) <==> exists p :: p in Leaves(tree) && Meets(p, signers, lockHeight)
  {
    match tree
    case Leaf(policy) => assert policy in Leaves(tree);
    case Node(first, second) =>
      OpensByLeaf(first, signers, lockHeight);
      OpensByLeaf(second, signers, lockHeight);
  }

  /** Two trees with the same leaves give the same rights. */
  lemma ShapeDoesNotMatter(a: Tree, b: Tree, signers: set<Key>, lockHeight: nat)
    requires Leaves(a) == Leaves(b)
    ensures Spendable(a, signers, lockHeight) <==> Spendable(b, signers, lockHeight)
  {
    OpensByLeaf(a, signers, lockHeight);
    OpensByLeaf(b, signers, lockHeight);
  }

  lemma {:induction false} MeetsMonotone(policy: Policy, few: set<Key>, many: set<Key>, low: nat, high: nat)
    requires few <= many && low <= high && Meets(policy, few, low)
    ensures Meets(policy, many, high)
  {
    match policy
    case Pk(_) =>
    case After(_) =>
    case And(left, right) =>
      MeetsMonotone(left, few, many, low, high);
      MeetsMonotone(right, few, many, low, high);
  }

  /** For every tree, more signers or a later height never take a right away. */
  lemma RightsMonotone(tree: Tree, few: set<Key>, many: set<Key>, low: nat, high: nat)
    requires few <= many && low <= high && Spendable(tree, few, low)
    ensures Spendable(tree, many, high)
  {
    if !({Maker, Taker} <= few) {
      OpensByLeaf(tree, few, low);
      OpensByLeaf(tree, many, high);
      var p :| p in Leaves(tree) && Meets(p, few, low);
      MeetsMonotone(p, few, many, low, high);
    }
  }
}
