/**
 * Monte Carlo tree search over an abstract two-player game
 * (src/monte_carlo_tree_search.rs).
 *
 * The source links nodes with `Rc<RefCell<Node>>` downwards and `Weak`
 * upwards.  Here the tree is an arena: a `Tree` object owns a sequence of
 * nodes, a node names its children and its parent by index, and node 0 is the
 * root.  Children are always appended, so a parent's index is smaller than its
 * children's, which is what makes state reconstruction, backpropagation and
 * selection terminate.
 *
 * The game is a record of functions on board values.  Random draws are a
 * caller-supplied stream `rng: nat -> nat`; where the source draws a uniform
 * index below `len`, the model uses `rng(t) % len`.
 */
module Mcts {
  import opened Optional

  datatype Player = Host | Guest

  /** Result of a finished game from one player's perspective. */
  datatype Output = Win | Draw | Loss

  function Opponent(p: Player): (q: Player)
    ensures q != p
  {
    match p
    case Host => Guest
    case Guest => Host
  }

  /** The outcome as seen one level up the tree, by the other player. */
  function Flip(o: Output): (r: Output)
    ensures (r == Draw) <==> (o == Draw)
    ensures o != Draw ==> r != o
  {
    match o
    case Win => Loss
    case Loss => Win
    case Draw => Draw
  }

  /** The outcome seen n levels up. */
  function FlipN(o: Output, n: nat): Output
    decreases n
  {
    if n == 0 then o else FlipN(Flip(o), n - 1)
  }

  /** The game rules the engine is run on: clone is value semantics. */
  datatype Game<!B, !M> = Game(
    legalMoves: B -> seq<M>,
    apply: (B, M) -> B,
    finished: (B, Player) -> Option<Output>,
    nextToMove: B -> Player)

  /** `height` bounds the length of any game: every legal move lowers it. */
  ghost predicate Terminating<B(!new), M(!new)>(game: Game<B, M>, height: B -> nat)
  {
    forall b: B, m: M :: m in game.legalMoves(b) ==> height(game.apply(b, m)) < height(b)
  }

  datatype Origin<B, M> = Root(board: B) | Parent(parent: nat, move: M)

  datatype Node<B, M> = Node(
    simulations: nat,
    winCount: nat,
    drawCount: nat,
    possibleMoves: seq<M>,
    children: seq<nat>,
    origin: Origin<B, M>)

  datatype NodeType = Leaf(index: nat) | End(index: nat)

  // ---------------------------------------------------------------------
  // Shape of the arena
  // ---------------------------------------------------------------------

  /** Node 0 is the only root; every other node's parent comes before it. */
  ghost predicate Linked<B, M>(nodes: seq<Node<B, M>>)
  {
    && |nodes| > 0
    && nodes[0].origin.Root?
    && forall k :: 0 < k < |nodes| ==> nodes[k].origin.Parent? && nodes[k].origin.parent < k
  }

  /** Node c appears among its parent's children. */
  ghost predicate ListedByParent<B, M>(nodes: seq<Node<B, M>>, c: nat)
    requires Linked(nodes) && 0 < c < |nodes|
  {
    c in nodes[nodes[c].origin.parent].children
  }

  /** Children lists are increasing, point back to their parent, and are complete. */
  ghost predicate Shaped<B, M>(nodes: seq<Node<B, M>>)
  {
    && Linked(nodes)
    && (forall k, i :: 0 <= k < |nodes| && 0 <= i < |nodes[k].children| ==>
          k < nodes[k].children[i] < |nodes| && nodes[nodes[k].children[i]].origin.parent == k)
    && (forall k :: 0 <= k < |nodes| ==> Increasing(nodes[k].children))
    && (forall c :: 0 < c < |nodes| ==> ListedByParent(nodes, c))
  }

  predicate Increasing(cs: seq<nat>)
  {
    forall i, j :: 0 <= i < j < |cs| ==> cs[i] < cs[j]
  }

  /** Sum of the simulation counts of the nodes listed in cs. */
  function ChildSims<B, M>(nodes: seq<Node<B, M>>, cs: seq<nat>): nat
    requires forall i :: 0 <= i < |cs| ==> cs[i] < |nodes|
  {
    if cs == [] then 0 else nodes[cs[0]].simulations + ChildSims(nodes, cs[1..])
  }

  /**
   * Counter invariant: wins and draws never exceed visits, and a node has at
   * least as many visits as its children together, except that node d may be
   * one short (it is the next node backpropagation will reach).
   */
  ghost predicate CountedExcept<B, M>(nodes: seq<Node<B, M>>, d: int)
    requires Shaped(nodes)
  {
    forall k :: 0 <= k < |nodes| ==> NodeCounted(nodes, k, d)
  }

  ghost predicate NodeCounted<B, M>(nodes: seq<Node<B, M>>, k: nat, d: int)
    requires Shaped(nodes) && k < |nodes|
  {
    && nodes[k].winCount + nodes[k].drawCount <= nodes[k].simulations
    && ChildSims(nodes, nodes[k].children) <= nodes[k].simulations + (if k == d then 1 else 0)
  }

  /** Every node other than the root (and other than `unvisited`) has been visited. */
  ghost predicate Visited<B, M>(nodes: seq<Node<B, M>>, unvisited: int)
  {
    forall k :: 0 < k < |nodes| && k != unvisited ==> nodes[k].simulations >= 1
  }

  /** The moves by which the listed children were reached. */
  function ChildMoves<B, M>(nodes: seq<Node<B, M>>, cs: seq<nat>): seq<M>
    requires forall i :: 0 <= i < |cs| ==> cs[i] < |nodes| && nodes[cs[i]].origin.Parent?
  {
    if cs == [] then [] else [nodes[cs[0]].origin.move] + ChildMoves(nodes, cs[1..])
  }

  /**
   * State reconstruction (extract_board): the root stores its board; any
   * other node replays its move on its parent's board.
   */
  function ExtractBoard<B, M>(game: Game<B, M>, nodes: seq<Node<B, M>>, k: nat): B
    requires Linked(nodes) && k < |nodes|
    decreases k
  {
    match nodes[k].origin
    case Root(b) => b
    case Parent(p, m) => game.apply(ExtractBoard(game, nodes, p), m)
  }

  /** Node k's untried moves and its children's moves are exactly its legal moves. */
  ghost predicate Accounted<B, M>(game: Game<B, M>, nodes: seq<Node<B, M>>, k: nat)
    requires Shaped(nodes) && k < |nodes|
  {
    multiset(nodes[k].possibleMoves) + multiset(ChildMoves(nodes, nodes[k].children))
      == multiset(game.legalMoves(ExtractBoard(game, nodes, k)))
  }

  ghost predicate MovesAccounted<B, M>(game: Game<B, M>, nodes: seq<Node<B, M>>)
    requires Shaped(nodes)
  {
    forall k :: 0 <= k < |nodes| ==> Accounted(game, nodes, k)
  }

  /** The invariant of a search tree between two iterations. */
  ghost predicate ValidTree<B, M>(game: Game<B, M>, nodes: seq<Node<B, M>>)
  {
    && Shaped(nodes)
    && CountedExcept(nodes, -1)
    && Visited(nodes, -1)
    && MovesAccounted(game, nodes)
  }

  /** Ancestors of k, from k itself up to the root. */
  ghost function Path<B, M>(nodes: seq<Node<B, M>>, k: nat): (path: seq<nat>)
    requires Linked(nodes) && k < |nodes|
    ensures |path| > 0 && path[0] == k && path[|path| - 1] == 0
    ensures forall i :: 0 <= i < |path| ==> path[i] <= k
    decreases k
  {
    match nodes[k].origin
    case Root(_) => [k]
    case Parent(p, _) => [k] + Path(nodes, p)
  }

  // ---------------------------------------------------------------------
  // Backpropagation (src/monte_carlo_tree_search.rs:116-135)
  // ---------------------------------------------------------------------

  /** One rollout credited to a node, from that node's perspective. */
  function Credit<B, M>(n: Node<B, M>, o: Output): Node<B, M>
  {
    n.(simulations := n.simulations + 1,
       winCount := n.winCount + (if o == Win then 1 else 0),
       drawCount := n.drawCount + (if o == Draw then 1 else 0))
  }

  /** The arena after crediting k with o, its parent with Flip(o), ... up to the root. */
  ghost function Backpropagated<B, M>(nodes: seq<Node<B, M>>, k: nat, o: Output): seq<Node<B, M>>
    requires Linked(nodes) && k < |nodes|
    decreases k
  {
    var credited := nodes[k := Credit(nodes[k], o)];
    match nodes[k].origin
    case Root(_) => credited
    case Parent(p, _) => Backpropagated(credited, p, Flip(o))
  }

  /** Two arenas with the same links: same size, same origins and children lists. */
  ghost predicate SameLinks<B, M>(a: seq<Node<B, M>>, b: seq<Node<B, M>>)
  {
    && |a| == |b|
    && forall j :: 0 <= j < |a| ==> a[j].origin == b[j].origin && a[j].children == b[j].children
  }

  /** The shape of the arena depends on its links only. */
  lemma ShapedFrame<B, M>(a: seq<Node<B, M>>, b: seq<Node<B, M>>)
    requires SameLinks(a, b)
    ensures Linked(a) ==> Linked(b)
    ensures Shaped(a) ==> Shaped(b)
  {
    if Shaped(a) {
      forall c | 0 < c < |b|
        ensures ListedByParent(b, c)
      {
        assert ListedByParent(a, c);
      }
    }
  }

  /** Nodes sharing their origins in a prefix share their reconstructed boards. */
  lemma {:induction false} ExtractBoardFrame<B, M>(game: Game<B, M>, a: seq<Node<B, M>>, b: seq<Node<B, M>>, k: nat)
    requires Linked(a) && Linked(b) && k < |a| && k < |b|
    requires forall j :: 0 <= j <= k ==> a[j].origin == b[j].origin
    ensures ExtractBoard(game, a, k) == ExtractBoard(game, b, k)
    decreases k
  {
    match a[k].origin
    case Root(_) =>
    case Parent(p, _) => ExtractBoardFrame(game, a, b, p);
  }

  /** Nodes sharing their origins in a prefix share their ancestors. */
  lemma {:induction false} PathFrame<B, M>(a: seq<Node<B, M>>, b: seq<Node<B, M>>, k: nat)
    requires Linked(a) && Linked(b) && k < |a| && k < |b|
    requires forall j :: 0 <= j <= k ==> a[j].origin == b[j].origin
    ensures Path(a, k) == Path(b, k)
    decreases k
  {
    match a[k].origin
    case Root(_) =>
    case Parent(p, _) => PathFrame(a, b, p);
  }

  /** Child-move lists only look at the listed nodes' origins. */
  lemma {:induction false} ChildMovesFrame<B, M>(a: seq<Node<B, M>>, b: seq<Node<B, M>>, cs: seq<nat>)
    requires forall i :: 0 <= i < |cs| ==> cs[i] < |a| && cs[i] < |b| && a[cs[i]].origin.Parent?
    requires forall i :: 0 <= i < |cs| ==> a[cs[i]].origin == b[cs[i]].origin
    ensures ChildMoves(a, cs) == ChildMoves(b, cs)
  {
    if cs != [] {
      ChildMovesFrame(a, b, cs[1..]);
    }
  }

  /** The move bookkeeping depends on links and untried moves only. */
  lemma MovesAccountedFrame<B, M>(game: Game<B, M>, a: seq<Node<B, M>>, b: seq<Node<B, M>>)
    requires Shaped(a) && SameLinks(a, b)
    requires forall j :: 0 <= j < |a| ==> a[j].possibleMoves == b[j].possibleMoves
    ensures Shaped(b)
    ensures MovesAccounted(game, a) ==> MovesAccounted(game, b)
  {
    ShapedFrame(a, b);
    if MovesAccounted(game, a) {
      forall j | 0 <= j < |a|
        ensures Accounted(game, b, j)
      {
        assert Accounted(game, a, j);
        ExtractBoardFrame(game, a, b, j);
        ChildMovesFrame(a, b, a[j].children);
      }
    }
  }

  /** Backpropagation changes counters only. */
  lemma {:induction false} BackpropagatedKeeps<B, M>(nodes: seq<Node<B, M>>, k: nat, o: Output)
    requires Linked(nodes) && k < |nodes|
    ensures SameLinks(nodes, Backpropagated(nodes, k, o))
    ensures forall j :: 0 <= j < |nodes| ==>
      Backpropagated(nodes, k, o)[j].possibleMoves == nodes[j].possibleMoves
    decreases k
  {
    var credited := nodes[k := Credit(nodes[k], o)];
    ShapedFrame(nodes, credited);
    match nodes[k].origin
    case Root(_) =>
    case Parent(p, _) => BackpropagatedKeeps(credited, p, Flip(o));
  }

  /** Backpropagation from k leaves every node off k's path to the root untouched. */
  lemma {:induction false} BackpropagatedOffPath<B, M>(nodes: seq<Node<B, M>>, k: nat, o: Output)
    requires Linked(nodes) && k < |nodes|
    ensures |Backpropagated(nodes, k, o)| == |nodes|
    ensures forall j :: 0 <= j < |nodes| && j !in Path(nodes, k) ==>
      Backpropagated(nodes, k, o)[j] == nodes[j]
    decreases k
  {
    var credited := nodes[k := Credit(nodes[k], o)];
    ShapedFrame(nodes, credited);
    BackpropagatedKeeps(nodes, k, o);
    match nodes[k].origin
    case Root(_) =>
    case Parent(p, _) =>
      BackpropagatedOffPath(credited, p, Flip(o));
      PathFrame(nodes, credited, p);
      assert Path(nodes, k) == [k] + Path(nodes, p);
  }

  /**
   * Backpropagation from k credits the ancestor at distance i with the
   * outcome flipped i times.
   */
  lemma {:induction false} BackpropagatedOnPath<B, M>(nodes: seq<Node<B, M>>, k: nat, o: Output, i: nat)
    requires Linked(nodes) && k < |nodes| && i < |Path(nodes, k)|
    ensures |Backpropagated(nodes, k, o)| == |nodes|
    ensures Backpropagated(nodes, k, o)[Path(nodes, k)[i]] == Credit(nodes[Path(nodes, k)[i]], FlipN(o, i))
    decreases k
  {
    var credited := nodes[k := Credit(nodes[k], o)];
    ShapedFrame(nodes, credited);
    BackpropagatedKeeps(nodes, k, o);
    match nodes[k].origin
    case Root(_) =>
    case Parent(p, _) =>
      PathFrame(nodes, credited, p);
      assert Path(nodes, k) == [k] + Path(credited, p);
      if i == 0 {
        BackpropagatedOffPath(credited, p, Flip(o));
        assert k !in Path(credited, p);
      } else {
        BackpropagatedOnPath(credited, p, Flip(o), i - 1);
        assert Path(nodes, k)[i] == Path(credited, p)[i - 1];
      }
  }

  /** Crediting node k adds one to the sum over a child list exactly when k is in it. */
  lemma {:induction false} ChildSimsCredit<B, M>(nodes: seq<Node<B, M>>, cs: seq<nat>, k: nat, o: Output)
    requires k < |nodes| && Increasing(cs)
    requires forall i :: 0 <= i < |cs| ==> cs[i] < |nodes|
    ensures ChildSims(nodes[k := Credit(nodes[k], o)], cs)
         == ChildSims(nodes, cs) + (if k in cs then 1 else 0)
  {
    if cs != [] {
      ChildSimsCredit(nodes, cs[1..], k, o);
      assert k in cs[1..] ==> cs[0] < k;
      assert k in cs <==> cs[0] == k || k in cs[1..];
    }
  }

  /** Sums over child lists only look at the listed nodes' counters. */
  lemma {:induction false} ChildSimsFrame<B, M>(a: seq<Node<B, M>>, b: seq<Node<B, M>>, cs: seq<nat>)
    requires forall i :: 0 <= i < |cs| ==> cs[i] < |a| && cs[i] < |b|
    requires forall i :: 0 <= i < |cs| ==> a[cs[i]].simulations == b[cs[i]].simulations
    ensures ChildSims(a, cs) == ChildSims(b, cs)
  {
    if cs != [] {
      ChildSimsFrame(a, b, cs[1..]);
    }
  }

  lemma {:induction false} ChildSimsAppend<B, M>(nodes: seq<Node<B, M>>, cs: seq<nat>, c: nat)
    requires forall i :: 0 <= i < |cs| ==> cs[i] < |nodes|
    requires c < |nodes|
    ensures ChildSims(nodes, cs + [c]) == ChildSims(nodes, cs) + nodes[c].simulations
  {
    if cs == [] {
      assert cs + [c] == [c];
    } else {
      assert (cs + [c])[1..] == cs[1..] + [c];
      ChildSimsAppend(nodes, cs[1..], c);
    }
  }

  /** Each listed child accounts for at most the sum over the list. */
  lemma {:induction false} ChildSimsBound<B, M>(nodes: seq<Node<B, M>>, cs: seq<nat>, i: nat)
    requires forall j :: 0 <= j < |cs| ==> cs[j] < |nodes|
    requires i < |cs|
    ensures nodes[cs[i]].simulations <= ChildSims(nodes, cs)
  {
    if i > 0 {
      ChildSimsBound(nodes, cs[1..], i - 1);
    }
  }

  /** Crediting k moves the one-visit gap of the counter invariant from k to k's parent. */
  lemma CreditedCountsAt<B, M>(nodes: seq<Node<B, M>>, k: nat, o: Output, q: nat)
    requires Shaped(nodes) && k < |nodes| && q < |nodes| && NodeCounted(nodes, q, k)
    ensures Shaped(nodes[k := Credit(nodes[k], o)])
    ensures NodeCounted(nodes[k := Credit(nodes[k], o)], q,
                        if nodes[k].origin.Root? then -1 else nodes[k].origin.parent)
  {
    ShapedFrame(nodes, nodes[k := Credit(nodes[k], o)]);
    var cs := nodes[q].children;
    assert Increasing(cs);
    ChildSimsCredit(nodes, cs, k, o);
    if k in cs {
      var i :| 0 <= i < |cs| && cs[i] == k;
      assert nodes[k].origin.parent == q;
    }
  }

  lemma CreditedCounts<B, M>(nodes: seq<Node<B, M>>, k: nat, o: Output)
    requires Shaped(nodes) && k < |nodes| && CountedExcept(nodes, k)
    ensures Shaped(nodes[k := Credit(nodes[k], o)])
    ensures CountedExcept(nodes[k := Credit(nodes[k], o)],
                          if nodes[k].origin.Root? then -1 else nodes[k].origin.parent)
  {
    var credited := nodes[k := Credit(nodes[k], o)];
    ShapedFrame(nodes, credited);
    var d: int := if nodes[k].origin.Root? then -1 else nodes[k].origin.parent;
    forall q | 0 <= q < |nodes|
      ensures NodeCounted(credited, q, d)
    {
      CreditedCountsAt(nodes, k, o, q);
    }
  }

  /** Backpropagation from k restores the counter invariant whose only gap was at k. */
  lemma {:induction false} BackpropagatedCounts<B, M>(nodes: seq<Node<B, M>>, k: nat, o: Output)
    requires Shaped(nodes) && k < |nodes| && CountedExcept(nodes, k)
    ensures Shaped(Backpropagated(nodes, k, o))
    ensures CountedExcept(Backpropagated(nodes, k, o), -1)
    decreases k
  {
    var credited := nodes[k := Credit(nodes[k], o)];
    CreditedCounts(nodes, k, o);
    match nodes[k].origin
    case Root(_) =>
    case Parent(p, _) => BackpropagatedCounts(credited, p, Flip(o));
  }

  /** Backpropagation keeps a search tree valid and adds one visit to the root. */
  lemma BackpropagatedValid<B, M>(game: Game<B, M>, nodes: seq<Node<B, M>>, k: nat, o: Output)
    requires ReadyToCredit(game, nodes, k)
    ensures ValidTree(game, Backpropagated(nodes, k, o))
    ensures Backpropagated(nodes, k, o)[0].simulations == nodes[0].simulations + 1
    ensures SameLinks(nodes, Backpropagated(nodes, k, o))
  {
    var r := Backpropagated(nodes, k, o);
    forall q | 0 <= q < |nodes|
      ensures NodeCounted(nodes, q, k)
    {
      assert NodeCounted(nodes, q, -1);
    }
    BackpropagatedKeeps(nodes, k, o);
    BackpropagatedCounts(nodes, k, o);
    BackpropagatedOffPath(nodes, k, o);
    MovesAccountedFrame(game, nodes, r);
    var path := Path(nodes, k);
    BackpropagatedOnPath(nodes, k, o, |path| - 1);
    BackpropagatedOnPath(nodes, k, o, 0);
    forall j | 0 < j < |nodes|
      ensures r[j].simulations >= nodes[j].simulations
    {
      if j in path {
        var i :| 0 <= i < |path| && path[i] == j;
        BackpropagatedOnPath(nodes, k, o, i);
      }
    }
  }

  lemma {:induction false} ChildMovesAppend<B, M>(nodes: seq<Node<B, M>>, cs: seq<nat>, c: nat)
    requires forall i :: 0 <= i < |cs| ==> cs[i] < |nodes| && nodes[cs[i]].origin.Parent?
    requires c < |nodes| && nodes[c].origin.Parent?
    ensures ChildMoves(nodes, cs + [c]) == ChildMoves(nodes, cs) + [nodes[c].origin.move]
  {
    if cs == [] {
      assert cs + [c] == [c];
    } else {
      assert (cs + [c])[1..] == cs[1..] + [c];
      ChildMovesAppend(nodes, cs[1..], c);
    }
  }

  // ---------------------------------------------------------------------
  // Expansion (src/monte_carlo_tree_search.rs:96-113)
  // ---------------------------------------------------------------------

  function RemoveAt<T>(s: seq<T>, i: nat): (r: seq<T>)
    requires i < |s|
    ensures |r| == |s| - 1
    ensures multiset(r) + multiset{s[i]} == multiset(s)
  {
    assert s == s[..i] + [s[i]] + s[i + 1..];
    s[..i] + s[i + 1..]
  }

  /**
   * The arena after the untried move at `pick` of `leaf` is taken out of the
   * leaf's list and becomes a new last node, with untried moves `moves`.
   */
  function Attach<B, M>(nodes: seq<Node<B, M>>, leaf: nat, pick: nat, moves: seq<M>): seq<Node<B, M>>
    requires leaf < |nodes| && pick < |nodes[leaf].possibleMoves|
  {
    var n := nodes[leaf];
    nodes[leaf := n.(possibleMoves := RemoveAt(n.possibleMoves, pick), children := n.children + [|nodes|])]
      + [Node(0, 0, 0, moves, [], Parent(leaf, n.possibleMoves[pick]))]
  }

  /** Attaching keeps node 0 the only root and parents before children. */
  lemma AttachLinked<B, M>(nodes: seq<Node<B, M>>, leaf: nat, pick: nat, moves: seq<M>)
    requires Linked(nodes) && leaf < |nodes| && pick < |nodes[leaf].possibleMoves|
    ensures Linked(Attach(nodes, leaf, pick, moves))
    ensures forall j :: 0 <= j < |nodes| ==> Attach(nodes, leaf, pick, moves)[j].origin == nodes[j].origin
  {
  }

  /** The new node hangs below the leaf, as the leaf's last child. */
  lemma AttachShaped<B, M>(nodes: seq<Node<B, M>>, leaf: nat, pick: nat, moves: seq<M>)
    requires Shaped(nodes) && leaf < |nodes| && pick < |nodes[leaf].possibleMoves|
    ensures Shaped(Attach(nodes, leaf, pick, moves))
  {
    var r := Attach(nodes, leaf, pick, moves);
    var c := |nodes|;
    AttachLinked(nodes, leaf, pick, moves);
    assert r[leaf].children == nodes[leaf].children + [c];
    forall k, i | 0 <= k < |r| && 0 <= i < |r[k].children|
      ensures k < r[k].children[i] < |r| && r[r[k].children[i]].origin.parent == k
    {
      if k == leaf && i == |nodes[leaf].children| {
        assert r[k].children[i] == c;
      }
    }
    forall q | 0 < q < |r|
      ensures ListedByParent(r, q)
    {
      if q < c {
        var pq := nodes[q].origin.parent;
        assert ListedByParent(nodes, q);
        if pq == leaf {
          assert q in r[pq].children;
        }
      }
    }
  }

  /** Attaching changes neither the counters nor the sum over any old node's children. */
  lemma AttachCountsAt<B, M>(nodes: seq<Node<B, M>>, leaf: nat, pick: nat, moves: seq<M>, k: nat)
    requires Shaped(nodes) && leaf < |nodes| && pick < |nodes[leaf].possibleMoves|
    requires k < |nodes| && NodeCounted(nodes, k, -1)
    ensures Shaped(Attach(nodes, leaf, pick, moves))
    ensures NodeCounted(Attach(nodes, leaf, pick, moves), k, -1)
  {
    var r := Attach(nodes, leaf, pick, moves);
    AttachShaped(nodes, leaf, pick, moves);
    ChildSimsFrame(nodes, r, nodes[k].children);
    if k == leaf {
      ChildSimsAppend(r, nodes[k].children, |nodes|);
    }
  }

  /** A new node with zero counters keeps the counter invariant; only it is unvisited. */
  lemma AttachCounts<B, M>(nodes: seq<Node<B, M>>, leaf: nat, pick: nat, moves: seq<M>)
    requires Shaped(nodes) && CountedExcept(nodes, -1) && Visited(nodes, -1)
    requires leaf < |nodes| && pick < |nodes[leaf].possibleMoves|
    ensures Shaped(Attach(nodes, leaf, pick, moves))
    ensures CountedExcept(Attach(nodes, leaf, pick, moves), -1)
    ensures Visited(Attach(nodes, leaf, pick, moves), |nodes|)
  {
    var r := Attach(nodes, leaf, pick, moves);
    AttachShaped(nodes, leaf, pick, moves);
    assert ChildSims(r, []) == 0;
    assert NodeCounted(r, |nodes|, -1);
    forall k | 0 <= k < |nodes|
      ensures NodeCounted(r, k, -1)
    {
      AttachCountsAt(nodes, leaf, pick, moves, k);
    }
  }

  /** The picked move leaves the leaf's untried list exactly when it enters the leaf's child list. */
  lemma AttachMovesAt<B, M>(game: Game<B, M>, nodes: seq<Node<B, M>>, leaf: nat, pick: nat, moves: seq<M>, k: nat)
    requires Shaped(nodes) && leaf < |nodes| && pick < |nodes[leaf].possibleMoves|
    requires k < |nodes| && Accounted(game, nodes, k)
    ensures Shaped(Attach(nodes, leaf, pick, moves))
    ensures Accounted(game, Attach(nodes, leaf, pick, moves), k)
  {
    var r := Attach(nodes, leaf, pick, moves);
    AttachShaped(nodes, leaf, pick, moves);
    AttachLinked(nodes, leaf, pick, moves);
    ExtractBoardFrame(game, nodes, r, k);
    ChildMovesFrame(nodes, r, nodes[k].children);
    if k == leaf {
      ChildMovesAppend(r, nodes[k].children, |nodes|);
    }
  }

  /**
   * With the legal moves of the child's board as its untried moves, every
   * node's moves stay accounted for.
   */
  lemma AttachMoves<B, M>(game: Game<B, M>, nodes: seq<Node<B, M>>, leaf: nat, pick: nat)
    requires Shaped(nodes) && MovesAccounted(game, nodes)
    requires leaf < |nodes| && pick < |nodes[leaf].possibleMoves|
    ensures var board := game.apply(ExtractBoard(game, nodes, leaf), nodes[leaf].possibleMoves[pick]);
      var r := Attach(nodes, leaf, pick, game.legalMoves(board));
      && Shaped(r) && MovesAccounted(game, r)
      && ExtractBoard(game, r, |nodes|) == board
  {
    var board := game.apply(ExtractBoard(game, nodes, leaf), nodes[leaf].possibleMoves[pick]);
    var moves := game.legalMoves(board);
    var r := Attach(nodes, leaf, pick, moves);
    AttachShaped(nodes, leaf, pick, moves);
    AttachLinked(nodes, leaf, pick, moves);
    ExtractBoardFrame(game, nodes, r, leaf);
    assert ChildMoves(r, []) == [];
    assert Accounted(game, r, |nodes|);
    forall k | 0 <= k < |nodes|
      ensures Accounted(game, r, k)
    {
      AttachMovesAt(game, nodes, leaf, pick, moves, k);
    }
  }

  /** A tree that is valid except that node k may be one visit short of its children, and unvisited. */
  ghost predicate ReadyToCredit<B, M>(game: Game<B, M>, nodes: seq<Node<B, M>>, k: nat)
  {
    && Shaped(nodes) && k < |nodes|
    && CountedExcept(nodes, -1) && Visited(nodes, k) && MovesAccounted(game, nodes)
  }

  // ---------------------------------------------------------------------
  // Selection (src/monte_carlo_tree_search.rs:56-82)
  // ---------------------------------------------------------------------

  /** The exploration term of the upper-confidence score is defined once both counts are positive. */
  ghost predicate Explores(explore: (nat, nat) --> real)
  {
    forall p: nat, c: nat :: 1 <= p && 1 <= c ==> explore.requires(p, c)
  }

  /** Win rate with a draw worth half a win; needs a visited node. */
  function WinRate(winCount: nat, drawCount: nat, simulations: nat): (r: real)
    requires simulations >= 1
    ensures winCount + drawCount <= simulations ==> 0.0 <= r <= 1.0
  {
    (winCount as real * 2.0 + drawCount as real * 1.0) / (simulations as real * 2.0)
  }

  /** The score `alpha` of a child: win rate plus the exploration term. */
  function Score(child: Node, parentSimulations: nat, explore: (nat, nat) --> real): real
    requires child.simulations >= 1 && parentSimulations >= 1 && Explores(explore)
  {
    WinRate(child.winCount, child.drawCount, child.simulations)
      + explore(parentSimulations, child.simulations)
  }

  /** Every child of a node in a valid tree is visited, and no more often than its parent. */
  lemma ChildrenVisited<B, M>(game: Game<B, M>, nodes: seq<Node<B, M>>, k: nat)
    requires ValidTree(game, nodes) && k < |nodes|
    ensures forall i :: 0 <= i < |nodes[k].children| ==>
      1 <= nodes[nodes[k].children[i]].simulations <= nodes[k].simulations
  {
    forall i | 0 <= i < |nodes[k].children|
      ensures 1 <= nodes[nodes[k].children[i]].simulations <= nodes[k].simulations
    {
      assert NodeCounted(nodes, k, -1);
      ChildSimsBound(nodes, nodes[k].children, i);
    }
  }

  /** The scores of k's children, in child order. */
  ghost function Scores<B, M>(game: Game<B, M>, nodes: seq<Node<B, M>>, k: nat, explore: (nat, nat) --> real): (s: seq<real>)
    requires ValidTree(game, nodes) && k < |nodes| && Explores(explore)
    ensures |s| == |nodes[k].children|
  {
    ChildrenVisited(game, nodes, k);
    var cs := nodes[k].children;
    seq(|cs|, i requires 0 <= i < |cs| => Score(nodes[cs[i]], nodes[k].simulations, explore))
  }

  /**
   * The (index, value) the selection loop holds after the first n scores:
   * it starts at (0, 0.0) and moves only on a strictly greater score.
   */
  function FirstMaxUpTo(s: seq<real>, n: nat): (nat, real)
    requires n <= |s|
  {
    if n == 0 then (0, 0.0)
    else
      var (b, m) := FirstMaxUpTo(s, n - 1);
      if s[n - 1] > m then (n - 1, s[n - 1]) else (b, m)
  }

  /**
   * The loop's choice is the first maximiser when some score is positive,
   * and the first child otherwise.
   */
  lemma {:induction false} FirstMaxUpToIsFirstMaximiser(s: seq<real>, n: nat)
    requires 0 < n <= |s|
    ensures var (b, m) := FirstMaxUpTo(s, n);
      && b < n
      && ((forall j :: 0 <= j < n ==> s[j] <= 0.0) ==> b == 0 && m == 0.0)
      && ((exists j :: 0 <= j < n && s[j] > 0.0) ==>
            && m == s[b] && m > 0.0
            && (forall j :: 0 <= j < n ==> s[j] <= m)
            && (forall j :: 0 <= j < b ==> s[j] < m))
  {
    if n > 1 {
      FirstMaxUpToIsFirstMaximiser(s, n - 1);
    }
  }

  /** The child the descent continues into. */
  function BestChild(s: seq<real>): nat
    requires |s| > 0
  {
    FirstMaxUpTo(s, |s|).0
  }

  /** Where selection ends when it starts at node k. */
  ghost function Descend<B, M>(game: Game<B, M>, nodes: seq<Node<B, M>>, explore: (nat, nat) --> real, k: nat): (r: NodeType)
    requires ValidTree(game, nodes) && Explores(explore) && k < |nodes|
    ensures r.index < |nodes| && k in Path(nodes, r.index)
    ensures r.Leaf? <==> |nodes[r.index].possibleMoves| > 0
    ensures r.End? ==> nodes[r.index].children == []
    ensures r.End? ==> game.legalMoves(ExtractBoard(game, nodes, r.index)) == []
    decreases |nodes| - k
  {
    var n := nodes[k];
    if |n.possibleMoves| > 0 then Leaf(k)
    else if |n.children| == 0 then
      assert Accounted(game, nodes, k);
      assert ChildMoves(nodes, n.children) == [];
      assert multiset(game.legalMoves(ExtractBoard(game, nodes, k))) == multiset{};
      End(k)
    else
      var s := Scores(game, nodes, k, explore);
      FirstMaxUpToIsFirstMaximiser(s, |s|);
      var c := n.children[BestChild(s)];
      var r := Descend(game, nodes, explore, c);
      PathThrough(nodes, r.index, c, k);
      r
  }

  /** If c's parent is k, every path through c continues to k. */
  lemma {:induction false} PathThrough<B, M>(nodes: seq<Node<B, M>>, j: nat, c: nat, k: nat)
    requires Linked(nodes) && j < |nodes| && 0 < c < |nodes| && nodes[c].origin.parent == k
    requires c in Path(nodes, j)
    ensures k in Path(nodes, j)
    decreases j
  {
    if j != c {
      match nodes[j].origin
      case Root(_) =>
      case Parent(p, _) => PathThrough(nodes, p, c, k);
    }
  }

  /** Search tree over the rules in `game`, stored as an arena of nodes. */
  class Tree<B(!new), M(!new)> {
    const game: Game<B, M>
    var nodes: seq<Node<B, M>>

    ghost predicate Valid()
      reads this
    {
      ValidTree(game, nodes)
    }

    /** The root: zero counters, all legal moves untried, the board stored. */
    constructor (game: Game<B, M>, board: B)
      ensures this.game == game
      ensures nodes == [Node(0, 0, 0, game.legalMoves(board), [], Root(board))]
      ensures Valid()
    {
      this.game := game;
      nodes := [Node(0, 0, 0, game.legalMoves(board), [], Root(board))];
      new;
      assert ChildMoves(nodes, []) == [];
    }

    /** The loop over k's children that keeps the first strictly best score above 0. */
    method BestChildOf(k: nat, explore: (nat, nat) --> real) returns (best: nat)
      requires Valid() && Explores(explore) && k < |nodes| && |nodes[k].children| > 0
      ensures best == BestChild(Scores(game, nodes, k, explore))
      ensures best < |nodes[k].children|
      ensures var s := Scores(game, nodes, k, explore);
        && ((forall j :: 0 <= j < |s| ==> s[j] <= 0.0) ==> best == 0)
        && ((exists j :: 0 <= j < |s| && s[j] > 0.0) ==>
              (forall j :: 0 <= j < |s| ==> s[j] <= s[best])
              && (forall j :: 0 <= j < best ==> s[j] < s[best]))
    {
      ChildrenVisited(game, nodes, k);
      ghost var s := Scores(game, nodes, k, explore);
      var cs := nodes[k].children;
      var maxAlpha := 0.0;
      best := 0;
      for i := 0 to |cs|
        invariant (best, maxAlpha) == FirstMaxUpTo(s, i)
      {
        var alpha := Score(nodes[cs[i]], nodes[k].simulations, explore);
        if alpha > maxAlpha {
          maxAlpha := alpha;
          best := i;
        }
      }
      FirstMaxUpToIsFirstMaximiser(s, |s|);
    }

    /**
     * Descend from the root: stop at a node with untried moves (Leaf), or at a
     * node with neither untried moves nor children (End); otherwise continue
     * into the best-scoring child.
     */
    method Selection(explore: (nat, nat) --> real) returns (r: NodeType)
      requires Valid() && Explores(explore)
      ensures r == Descend(game, nodes, explore, 0)
      ensures r.index < |nodes|
      ensures r.Leaf? <==> |nodes[r.index].possibleMoves| > 0
      ensures r.End? ==> nodes[r.index].children == []
      ensures r.End? ==> game.legalMoves(ExtractBoard(game, nodes, r.index)) == []
    {
      var k := 0;
      while true
        invariant k < |nodes| && Descend(game, nodes, explore, k) == Descend(game, nodes, explore, 0)
        decreases |nodes| - k
      {
        var n := nodes[k];
        if |n.possibleMoves| > 0 {
          return Leaf(k);
        }
        if |n.children| == 0 {
          return End(k);
        }
        var i := BestChildOf(k, explore);
        k := n.children[i];
      }
    }

    /**
     * Remove the untried move at index `roll % len` of the leaf, apply it to
     * the leaf's reconstructed board and attach the resulting node as the
     * leaf's last child.
     */
    method Expansion(leaf: nat, roll: nat) returns (board: B, child: nat)
      requires Valid() && leaf < |nodes| && |nodes[leaf].possibleMoves| > 0
      modifies this
      ensures var pick := roll % |old(nodes)[leaf].possibleMoves|;
        && board == game.apply(ExtractBoard(game, old(nodes), leaf), old(nodes)[leaf].possibleMoves[pick])
        && nodes == Attach(old(nodes), leaf, pick, game.legalMoves(board))
      ensures child == old(|nodes|) && ReadyToCredit(game, nodes, child)
      ensures board == ExtractBoard(game, nodes, child)
      ensures forall j :: 0 <= j < old(|nodes|) ==>
        nodes[j].origin == old(nodes)[j].origin && nodes[j].simulations == old(nodes)[j].simulations
    {
      var pick := roll % |nodes[leaf].possibleMoves|;
      board := game.apply(ExtractBoard(game, nodes, leaf), nodes[leaf].possibleMoves[pick]);
      AttachCounts(nodes, leaf, pick, game.legalMoves(board));
      AttachMoves(game, nodes, leaf, pick);
      AttachLinked(nodes, leaf, pick, game.legalMoves(board));
      child := |nodes|;
      nodes := Attach(nodes, leaf, pick, game.legalMoves(board));
    }

    /**
     * Walk from `start` up to the root, adding a visit to every node and
     * crediting the outcome, flipped at every level.
     */
    method Backpropagation(value: Output, start: nat)
      requires Linked(nodes) && start < |nodes|
      modifies this
      ensures nodes == Backpropagated(old(nodes), start, value)
    {
      var cur: nat, v := start, value;
      while true
        invariant Linked(nodes) && cur < |nodes|
        invariant Backpropagated(nodes, cur, v) == Backpropagated(old(nodes), start, value)
        decreases cur
      {
        var n := nodes[cur];
        ShapedFrame(nodes, nodes[cur := Credit(n, v)]);
        nodes := nodes[cur := Credit(n, v)];
        match n.origin
        case Root(_) =>
          return;
        case Parent(p, _) =>
          cur, v := p, Flip(v);
      }
    }

    /** One iteration: select, expand if possible, roll out, backpropagate. */
    method Algorithm(explore: (nat, nat) --> real, ghost height: B -> nat, rng: nat -> nat)
      requires Valid() && Explores(explore) && Terminating(game, height)
      modifies this
      ensures Valid()
      ensures nodes[0].simulations == old(nodes[0].simulations) + 1
      ensures |nodes| >= old(|nodes|)
      ensures forall j :: 0 <= j < old(|nodes|) ==> nodes[j].origin == old(nodes)[j].origin
    {
      var selected := Selection(explore);
      var board: B;
      var node: nat;
      if selected.Leaf? {
        board, node := Expansion(selected.index, rng(0));
      } else {
        board, node := ExtractBoard(game, nodes, selected.index), selected.index;
      }
      assert ReadyToCredit(game, nodes, node);
      var value := Simulation(game, height, board, t => rng(t + 1));
      ghost var before := nodes;
      Backpropagation(value, node);
      BackpropagatedValid(game, before, node, value);
    }
  }

  // ---------------------------------------------------------------------
  // Rollout (src/monte_carlo_tree_search.rs:138-156)
  // ---------------------------------------------------------------------

  /** The board a random playout from `board` ends on, draws taken from rng(t), rng(t+1), ... */
  ghost function Playout<B(!new), M(!new)>(game: Game<B, M>, height: B -> nat, board: B, rng: nat -> nat, t: nat): B
    requires Terminating(game, height)
    decreases height(board)
  {
    var moves := game.legalMoves(board);
    if |moves| == 0 then board
    else
      var m := moves[rng(t) % |moves|];
      assert m in game.legalMoves(board);
      Playout(game, height, game.apply(board, m), rng, t + 1)
  }

  /** A playout stops only on a board with no legal move. */
  lemma {:induction false} PlayoutEnds<B(!new), M(!new)>(game: Game<B, M>, height: B -> nat, board: B, rng: nat -> nat, t: nat)
    requires Terminating(game, height)
    ensures game.legalMoves(Playout(game, height, board, rng, t)) == []
    decreases height(board)
  {
    var moves := game.legalMoves(board);
    if |moves| > 0 {
      var m := moves[rng(t) % |moves|];
      assert m in game.legalMoves(board);
      PlayoutEnds(game, height, game.apply(board, m), rng, t + 1);
    }
  }

  /**
   * Play random legal moves until none is left, then score the final board
   * for the player who moved last before the rollout started (the opponent
   * of the player to move); a finished check that reports nothing is a draw.
   */
  method Simulation<B(!new), M(!new)>(game: Game<B, M>, ghost height: B -> nat, board: B, rng: nat -> nat) returns (o: Output)
    requires Terminating(game, height)
    ensures var last := Playout(game, height, board, rng, 0);
      && game.legalMoves(last) == []
      && o == match game.finished(last, Opponent(game.nextToMove(board)))
              case Some(x) => x
              case None => Draw
  {
    var player := Opponent(game.nextToMove(board));
    var b := board;
    var t := 0;
    var moves := game.legalMoves(b);
    while |moves| > 0
      invariant moves == game.legalMoves(b)
      invariant Playout(game, height, b, rng, t) == Playout(game, height, board, rng, 0)
      decreases height(b)
    {
      var m := moves[rng(t) % |moves|];
      assert m in game.legalMoves(b);
      b := game.apply(b, m);
      t := t + 1;
      moves := game.legalMoves(b);
    }
    PlayoutEnds(game, height, board, rng, 0);
    o := match game.finished(b, player)
         case Some(x) => x
         case None => Draw;
  }

  // ---------------------------------------------------------------------
  // Engine (src/monte_carlo_tree_search.rs:26-49)
  // ---------------------------------------------------------------------

  /**
   * Build a root for `board` and run `iterations` iterations; iteration i
   * draws its random numbers from rng(i).  The root then has exactly
   * `iterations` visits.
   */
  method Engine<B(!new), M(!new)>(game: Game<B, M>, ghost height: B -> nat, board: B, iterations: nat,
                                     explore: (nat, nat) --> real, rng: nat -> nat -> nat)
    returns (tree: Tree<B, M>)
    requires Terminating(game, height) && Explores(explore)
    ensures fresh(tree) && tree.game == game && tree.Valid()
    ensures tree.nodes[0].simulations == iterations
    ensures tree.nodes[0].origin == Root(board)
  {
    tree := new Tree(game, board);
    for i := 0 to iterations
      invariant tree.game == game && tree.Valid()
      invariant tree.nodes[0].simulations == i && tree.nodes[0].origin == Root(board)
    {
      tree.Algorithm(explore, height, rng(i));
    }
  }
}
