/** The organ-placement game: the module-level state of the game script and the
    handlers that change it. Each browser callback (a select event, a timer tick,
    the victory timeout) is one method; geometry arrives as oracle values in the
    event. */
module Game {
  import opened Text
  import opened Scene
  import opened Classifier
  import opened Anchors
  import opened Placement
  import opened Display

  /** The `userData` of an object a ray meets: a button with its action, or any
      other object (panel, text, shadow). */
  datatype Tag = Button(action: string) | Decoration

  /** What the browser and three.js report for one select event: whether the
      reticle shows a surface, what the controller ray meets on each panel
      (nearest first), whether it meets the model, where it meets the plane
      through the target, and the world centers of the model's nodes. */
  datatype SelectInput = SelectInput(
    reticleVisible: bool,
    menuHits: seq<Tag>,
    rulesHits: seq<Tag>,
    difficultyHits: seq<Tag>,
    hitsModel: bool,
    planeHit: Option<Vec3>,
    centers: CenterOracle)

  /** The buttons of the main menu, the rules panel and the difficulty panel. */
  const MenuActions: seq<string> := ["start", "rules", "settings"]
  const RulesActions: seq<string> := ["back"]
  const DifficultyActions: seq<string> := ["simple", "advanced"]

  predicate ButtonsAmong(hits: seq<Tag>, actions: seq<string>) {
    forall i :: 0 <= i < |hits| && hits[i].Button? ==> hits[i].action in actions
  }

  /** A ray can only meet the buttons a panel carries. */
  predicate PanelsConsistent(input: SelectInput) {
    ButtonsAmong(input.menuHits, MenuActions)
    && ButtonsAmong(input.rulesHits, RulesActions)
    && ButtonsAmong(input.difficultyHits, DifficultyActions)
  }

  /** `intersects.find(i => i.object.userData?.type === 'button')`: the action
      of the first button among the hits. */
  function FirstButton(hits: seq<Tag>): (r: Option<string>)
    ensures r.Some? ==> exists i :: 0 <= i < |hits| && hits[i] == Button(r.value)
                                   && forall j :: 0 <= j < i ==> !hits[j].Button?
    ensures r.None? <==> forall i :: 0 <= i < |hits| ==> !hits[i].Button?
  {
    if hits == [] then None
    else if hits[0].Button? then Some(hits[0].action)
    else
      var r := FirstButton(hits[1..]);
      assert forall i :: 1 <= i < |hits| ==> hits[i] == hits[1..][i - 1];
      if r.Some? then
        var i :| 0 <= i < |hits[1..]| && hits[1..][i] == Button(r.value)
                 && forall j :: 0 <= j < i ==> !hits[1..][j].Button?;
        assert hits[i + 1] == Button(r.value);
        r
      else r
  }

  /** The difficulty handler's test: the nearest object, when it is a button. */
  function FirstHitButton(hits: seq<Tag>): (r: Option<string>)
    ensures r.Some? ==> FirstButton(hits) == r
    ensures r.None? <==> hits == [] || !hits[0].Button?
  {
    if |hits| > 0 && hits[0].Button? then Some(hits[0].action) else None
  }

  /** Where onSelect sends a select event. */
  datatype Route = Ignored | PlaceModel | Placement | MenuAction(action: string) | NoButton

  /** The branch order of onSelect: the victory guard, then model placement,
      then organ placement, then the menu panel (checked before the rules panel). */
  function RouteOf(victoryPlaying: bool, placed: bool, active: bool, menuVisible: bool,
                   rulesVisible: bool, input: SelectInput): (r: Route)
    ensures victoryPlaying ==> r == Ignored
    ensures r == PlaceModel <==> !victoryPlaying && input.reticleVisible && !placed
    ensures r == Placement <==> !victoryPlaying && !(input.reticleVisible && !placed) && active
    ensures r.MenuAction? ==> menuVisible || rulesVisible
    ensures r.MenuAction? && menuVisible ==> FirstButton(input.menuHits) == Some(r.action)
    ensures r.MenuAction? && !menuVisible ==> FirstButton(input.rulesHits) == Some(r.action)
  {
    if victoryPlaying then Ignored
    else if input.reticleVisible && !placed then PlaceModel
    else if active then Placement
    else
      var hits := if menuVisible then input.menuHits else if rulesVisible then input.rulesHits else [];
      match FirstButton(hits)
      case Some(a) => MenuAction(a)
      case None => NoButton
  }

  /** The outcome of one placement attempt. `Fault` is a TypeError the script
      raises: when the game is active with an empty queue and the ray meets the
      model (`mainOrgans[0]` is undefined), or when a correct placement reaches
      a node without a material in createFlashingEffect. */
  datatype Outcome = Judged(verdict: Verdict) | Fault

  /** The game's phase, read off the flags by Game.CurrentPhase. */
  datatype Phase = Unplaced | Menu | Rules | ChoosingDifficulty | Playing | Victory

  function B2N(b: bool): nat { if b then 1 else 0 }

  function IsSimple(mode: Option<string>): bool {
    mode == Some("simple")
  }

  /** The setup resetOrgansForMode runs: simple mode only for "simple". */
  function ModeName(mode: Option<string>): string {
    if IsSimple(mode) then "simple" else "advanced"
  }

  /** The organ groups built from a traversal, in definition order. */
  function SimpleGroups(nodes: seq<Node>): (r: seq<seq<Node>>)
    ensures |r| == OrganCount && forall k :: 0 <= k < OrganCount ==> r[k] == Members(nodes, k)
  {
    seq(OrganCount, k requires 0 <= k < OrganCount => Members(nodes, k))
  }

  lemma SimpleGroupsFromEmpty(groups: seq<seq<Node>>, nodes: seq<Node>)
    requires Extends(groups, NoGroups, nodes)
    ensures groups == SimpleGroups(nodes)
  {
    forall k | 0 <= k < OrganCount ensures groups[k] == SimpleGroups(nodes)[k] {
      assert NoGroups[k] == [];
    }
  }

  /** Visiting one more node of the traversal adds it to its organ's group. */
  lemma SimpleGroupsSnoc(nodes: seq<Node>, i: nat)
    requires i < |nodes|
    ensures AddToGroup(SimpleGroups(nodes[..i]), OrganOf(nodes[i].name), nodes[i]) == SimpleGroups(nodes[..i + 1])
  {
    var g := SimpleGroups(nodes[..i]);
    var n := nodes[i];
    forall k | 0 <= k < OrganCount ensures g[k] == NoGroups[k] + Members(nodes[..i], k) {
      assert NoGroups[k] == [];
    }
    ExtendsOne(g, n);
    ExtendsTrans(NoGroups, g, AddToGroup(g, OrganOf(n.name), n), nodes[..i], [n]);
    assert nodes[..i + 1] == nodes[..i] + [n];
    SimpleGroupsFromEmpty(AddToGroup(g, OrganOf(n.name), n), nodes[..i + 1]);
  }

  /** The targets and ids a mode builds from the model, before the shuffle. */
  function ModeTargets(mode: string, root: Node, wc: CenterOracle): seq<Target> {
    if mode == "simple" then GroupTargets(SimpleGroups(PreOrder(root)), wc, OrganCount)
    else AdvancedTargets(PreOrder(root))
  }

  function ModePositions(mode: string, root: Node, wc: CenterOracle): map<Key, Vec3> {
    if mode == "simple" then GroupPositions(SimpleGroups(PreOrder(root)), wc, OrganCount)
    else AdvancedPositions(PreOrder(root), wc)
  }

  /** The node ids a mode's setup sets invisible. */
  function ModeHidden(mode: string, root: Node): set<NodeId> {
    if mode == "simple" then IdsOf(Matched(PreOrder(root)))
    else AllTargetIds(AdvancedTargets(PreOrder(root)))
  }

  /** The simple setup, run on an empty queue and table, builds the simple mode. */
  lemma SimpleSetupIsMode(root: Node, wc: CenterOracle)
    ensures ModeTargets("simple", root, wc) == [] + GroupTargets(SimpleGroups(PreOrder(root)), wc, OrganCount)
    ensures ModePositions("simple", root, wc) == map[] + GroupPositions(SimpleGroups(PreOrder(root)), wc, OrganCount)
    ensures ModeHidden("simple", root) == IdsOf(Matched(PreOrder(root)))
  {
    var m := GroupPositions(SimpleGroups(PreOrder(root)), wc, OrganCount);
    assert map[] + m == m;
  }

  /** Any other mode name falls to the advanced setup. */
  lemma AdvancedSetupIsMode(mode: string, root: Node, wc: CenterOracle)
    requires mode != "simple"
    ensures ModeTargets(mode, root, wc) == [] + AdvancedTargets(PreOrder(root))
    ensures ModePositions(mode, root, wc) == map[] + AdvancedPositions(PreOrder(root), wc)
    ensures ModeHidden(mode, root) == AllTargetIds(AdvancedTargets(PreOrder(root)))
  {
    var m := AdvancedPositions(PreOrder(root), wc);
    assert map[] + m == m;
  }

  /** The nodes of a target in the order a correct placement reveals and
      flashes them: `organ.parts` in simple mode, the node itself otherwise. */
  function FlashOrder(t: Target): seq<Node> {
    match t
    case Group(_, parts) => parts
    case Single(node) => [node]
  }

  /** The ids a correct placement reveals and flashes, in order. */
  function TargetNodes(t: Target): (r: seq<NodeId>)
    ensures forall id :: id in r <==> id in TargetIds(t)
  {
    var r := IdSeq(FlashOrder(t));
    assert IdsOf(FlashOrder(t)) == TargetIds(t) by {
      if t.Single? { assert [t.node][..0] == []; }
    }
    r
  }

  /** How many nodes, in flashing order, createFlashingEffect gets through:
      it reads `organ.material`, which a node without geometry (a Group or a
      bare Object3D) does not have, and throws there. */
  function FlashableCount(ns: seq<Node>): (r: nat)
    ensures r <= |ns|
    ensures forall i :: 0 <= i < r ==> ns[i].hasGeometry
    ensures r < |ns| ==> !ns[r].hasGeometry
  {
    if ns == [] || !ns[0].hasGeometry then 0
    else
      var r := 1 + FlashableCount(ns[1..]);
      assert forall i :: 1 <= i < |ns| ==> ns[i] == ns[1..][i - 1];
      r
  }

  /** Every node of the target carries a material, so flashing it cannot throw. */
  predicate Flashable(t: Target) {
    forall i :: 0 <= i < |FlashOrder(t)| ==> FlashOrder(t)[i].hasGeometry
  }

  /** The nodes a correct placement makes visible: all of them, or those up to
      and including the one at which createFlashingEffect throws. */
  function Shown(t: Target): seq<Node> {
    var ns := FlashOrder(t);
    var k := FlashableCount(ns);
    if k < |ns| then ns[..k + 1] else ns
  }

  /** The ids whose flashing effect starts: those before the throw. */
  function FlashedIds(t: Target): seq<NodeId> {
    IdSeq(FlashOrder(t)[..FlashableCount(FlashOrder(t))])
  }

  lemma IdSeqSnoc(ns: seq<Node>, j: nat)
    requires j < |ns|
    ensures IdSeq(ns[..j + 1]) == IdSeq(ns[..j]) + [ns[j].id]
  {
    assert forall i :: 0 <= i < j ==> ns[..j + 1][i] == ns[..j][i];
  }

  /** A target that cannot throw is shown and flashed whole; one that can
      is shown up to its first node without a material, and flashed before it. */
  lemma FlashableReveal(t: Target)
    ensures Flashable(t) <==> FlashableCount(FlashOrder(t)) == |FlashOrder(t)|
    ensures Flashable(t) ==> IdsOf(Shown(t)) == TargetIds(t) && FlashedIds(t) == TargetNodes(t)
    ensures !Flashable(t) ==>
      var k := FlashableCount(FlashOrder(t));
      Shown(t) == FlashOrder(t)[..k] + [FlashOrder(t)[k]] && !FlashOrder(t)[k].hasGeometry
      && |FlashedIds(t)| == k < |TargetNodes(t)| && FlashedIds(t) == TargetNodes(t)[..k]
  {
    var ns := FlashOrder(t);
    var k := FlashableCount(ns);
    if Flashable(t) {
      assert ns[..k] == ns;
      assert IdsOf(FlashOrder(t)) == TargetIds(t) by {
        if t.Single? { assert [t.node][..0] == []; }
      }
    } else {
      assert ns[..k + 1] == ns[..k] + [ns[k]];
    }
  }

  class Game {
    /** `baseModel`: the loaded model. */
    const root: Node
    /** `visible == false` for exactly these node ids. */
    var hidden: set<NodeId>
    /** `organGroups`: the parts of each organ, indexed in definition order. */
    var groups: seq<seq<Node>>
    var mainOrgans: seq<Target>
    var originalOrganPositions: map<Key, Vec3>
    var currentOrganIndex: nat
    var gameMode: Option<string>
    var isGameActive: bool
    var timerValue: nat
    /** The `setInterval` of startTimer is running. */
    var timerRunning: bool
    /** `baseModelGroup` exists: onModelLoaded has wrapped and processed the model. */
    var modelLoaded: bool
    /** `baseModelGroup.parent`: the model has been placed in the scene. */
    var placed: bool
    var isMenuVisible: bool
    var isRulesVisible: bool
    /** The difficulty `handleSelect` listener is registered. */
    var difficultyListening: bool
    /** The victory `setTimeout` is outstanding. */
    var victoryPending: bool
    /** Declared and read by onSelect, never assigned anywhere. */
    var isVictoryAnimationPlaying: bool

    /** The flags describe exactly one phase, the cursor stays within the queue,
        the timer runs exactly while a game is active, an active game reads its
        targets' positions from the table, and every target already placed is shown. */
    ghost predicate Valid()
      reads this
    {
      PhaseFlags() && (placed ==> QueueValid())
    }

    /** The flag part of Valid: before placement every flag is off; afterwards
        exactly one of menu, rules, difficulty choice, game and victory holds. */
    ghost predicate PhaseFlags()
      reads this`isVictoryAnimationPlaying, this`timerRunning, this`isGameActive, this`placed,
            this`isMenuVisible, this`isRulesVisible, this`difficultyListening, this`victoryPending,
            this`currentOrganIndex
    {
      !isVictoryAnimationPlaying
      && timerRunning == isGameActive
      && if !placed then
           !isMenuVisible && !isRulesVisible && !difficultyListening && !isGameActive
           && !victoryPending && currentOrganIndex == 0
         else
           B2N(isMenuVisible) + B2N(isRulesVisible) + B2N(difficultyListening)
           + B2N(isGameActive) + B2N(victoryPending) == 1
    }

    /** The queue part of Valid: the cursor is within the queue, it has not
        passed the end while playing and reached it at victory, an active game
        finds every target's position in the table, and every placed target is shown. */
    ghost predicate QueueValid()
      reads this
    {
      currentOrganIndex <= |mainOrgans|
      && (isGameActive ==> gameMode.Some? && (mainOrgans == [] || currentOrganIndex < |mainOrgans|))
      && (isGameActive ==> forall t :: t in mainOrgans ==>
            KeyOf(t) in originalOrganPositions && (t.Group? <==> IsSimple(gameMode)))
      && (victoryPending ==> currentOrganIndex == |mainOrgans|)
      && (forall i :: 0 <= i < currentOrganIndex ==> TargetIds(mainOrgans[i]) !! hidden)
    }

    function CurrentPhase(): Phase
      reads this
    {
      if !placed then Unplaced
      else if isGameActive then Playing
      else if victoryPending then Victory
      else if difficultyListening then ChoosingDifficulty
      else if isRulesVisible then Rules
      else Menu
    }

    /** The module's initial state, before onModelLoaded: the model's tree is
        known but not yet wrapped in `baseModelGroup` or processed. */
    constructor (root: Node)
      requires UniqueIds(PreOrder(root))
      ensures Valid() && CurrentPhase() == Unplaced
      ensures this.root == root && hidden == {} && groups == [] && mainOrgans == []
      ensures originalOrganPositions == map[] && currentOrganIndex == 0 && gameMode == None
      ensures timerValue == 0 && !timerRunning && !isGameActive && !modelLoaded
    {
      this.root := root;
      hidden := {};
      groups := [];
      mainOrgans := [];
      originalOrganPositions := map[];
      currentOrganIndex := 0;
      gameMode := None;
      isGameActive := false;
      timerValue := 0;
      timerRunning := false;
      placed := false;
      isMenuVisible := false;
      isRulesVisible := false;
      difficultyListening := false;
      victoryPending := false;
      isVictoryAnimationPlaying := false;
      modelLoaded := false;
    }

    // -------------------------------------------------------------------
    // Loading: processLoadedModel

    /** hideObjectAndChildren: the node and its whole subtree become invisible. */
    method HideObjectAndChildren(t: Node)
      modifies this`hidden
      ensures hidden == old(hidden) + IdsOf(PreOrder(t))
      decreases t
    {
      hidden := hidden + {t.id};
      var i := 0;
      while i < |t.children|
        invariant 0 <= i <= |t.children|
        invariant hidden == old(hidden) + {t.id} + IdsOf(PreOrderAll(t.children[..i]))
      {
        HideObjectAndChildren(t.children[i]);
        PreOrderAllSnoc(t.children, i);
        IdsOfAppend(PreOrderAll(t.children[..i]), PreOrder(t.children[i]));
        i := i + 1;
      }
      assert t.children[..i] == t.children;
      IdsOfAppend([t], PreOrderAll(t.children));
    }

    /** processObject: join the first matching organ group; otherwise hide the
        subtree of an obstruction; then classify the children, hidden or not. */
    method ProcessObject(t: Node)
      requires |groups| == OrganCount
      modifies this`groups, this`hidden
      ensures Extends(groups, old(groups), PreOrder(t))
      ensures hidden == old(hidden) + ObstructedIds(t)
      decreases t, 1
    {
      var organ := MatchOrgan(t.name);
      groups := AddToGroup(groups, organ, t);
      ExtendsOne(old(groups), t);
      if organ.None? && AnyKeyword(Lower(t.name), ObstructParts) {
        HideObjectAndChildren(t);
      }
      ghost var mid := groups;
      ghost var own := hidden;
      ExtendsEmpty(groups);
      var i := 0;
      while i < |t.children|
        invariant 0 <= i <= |t.children|
        invariant Extends(groups, mid, PreOrderAll(t.children[..i]))
        invariant hidden == own + ObstructedIdsAll(t.children[..i])
      {
        ProcessChild(t, i, mid, own);
        i := i + 1;
      }
      assert t.children[..i] == t.children;
      ExtendsTrans(old(groups), mid, groups, [t], PreOrderAll(t.children));
    }

    /** One iteration of processObject's loop over the children of `t`. */
    method ProcessChild(t: Node, i: nat, ghost mid: seq<seq<Node>>, ghost own: set<NodeId>)
      requires i < |t.children|
      requires Extends(groups, mid, PreOrderAll(t.children[..i]))
      requires hidden == own + ObstructedIdsAll(t.children[..i])
      modifies this`groups, this`hidden
      ensures Extends(groups, mid, PreOrderAll(t.children[..i + 1]))
      ensures hidden == own + ObstructedIdsAll(t.children[..i + 1])
      decreases t, 0
    {
      ProcessObject(t.children[i]);
      ExtendsTrans(mid, old(groups), groups, PreOrderAll(t.children[..i]), PreOrder(t.children[i]));
      PreOrderAllSnoc(t.children, i);
      ObstructedIdsAllSnoc(t.children, i);
    }

    /** The classification walk of processLoadedModel over fresh, empty groups. */
    method ClassifyModel()
      modifies this`groups, this`hidden
      ensures groups == SimpleGroups(PreOrder(root))
      ensures hidden == old(hidden) + ObstructedIds(root)
    {
      groups := NoGroups;
      ProcessObject(root);
      SimpleGroupsFromEmpty(groups, PreOrder(root));
    }

    /** The center loop: for each group in definition order, a group with a
        geometry-bearing part becomes a target anchored at the mean center. */
    method AddGroupTargets(wc: CenterOracle)
      requires |groups| == OrganCount
      modifies this`mainOrgans, this`originalOrganPositions
      ensures mainOrgans == old(mainOrgans) + GroupTargets(groups, wc, OrganCount)
      ensures originalOrganPositions == old(originalOrganPositions) + GroupPositions(groups, wc, OrganCount)
    {
      var k := 0;
      while k < OrganCount
        invariant 0 <= k <= OrganCount
        invariant mainOrgans == old(mainOrgans) + GroupTargets(groups, wc, k)
        invariant originalOrganPositions == old(originalOrganPositions) + GroupPositions(groups, wc, k)
      {
        var parts := groups[k];
        if |parts| > 0 {
          var centerSum, totalPoints := SumCenters(parts, wc);
          if totalPoints > 0 {
            var center := Div(centerSum, totalPoints as real);
            mainOrgans := mainOrgans + [Group(OrganNames[k], parts)];
            originalOrganPositions := originalOrganPositions[ByName(OrganNames[k]) := center];
          }
        }
        k := k + 1;
      }
    }

    /** Every part, or node, of each target becomes invisible. */
    method HideTargets(ts: seq<Target>)
      modifies this`hidden
      ensures hidden == old(hidden) + AllTargetIds(ts)
    {
      var i := 0;
      while i < |ts|
        invariant 0 <= i <= |ts|
        invariant hidden == old(hidden) + AllTargetIds(ts[..i])
      {
        match ts[i] {
          case Group(_, parts) =>
          var j := 0;
          while j < |parts|
            invariant 0 <= j <= |parts|
            invariant hidden == old(hidden) + AllTargetIds(ts[..i]) + IdsOf(parts[..j])
          {
            hidden := hidden + {parts[j].id};
            assert parts[..j + 1] == parts[..j] + [parts[j]];
            IdsOfAppend(parts[..j], [parts[j]]);
            j := j + 1;
          }
          assert parts[..j] == parts;
          case Single(node) =>
            hidden := hidden + {node.id};
        }
        assert ts[..i + 1][..i] == ts[..i];
        i := i + 1;
      }
      assert ts[..i] == ts;
    }

    /** processLoadedModel: classify and hide obstructions, build the grouped
        targets, then hide every target's parts. */
    method ProcessLoadedModel(wc: CenterOracle)
      requires Valid() && !placed
      modifies this`groups, this`hidden, this`mainOrgans, this`originalOrganPositions, this`modelLoaded
      ensures Valid() && CurrentPhase() == Unplaced && modelLoaded
      ensures groups == SimpleGroups(PreOrder(root))
      ensures mainOrgans == old(mainOrgans) + GroupTargets(groups, wc, OrganCount)
      ensures originalOrganPositions == old(originalOrganPositions) + GroupPositions(groups, wc, OrganCount)
      ensures hidden == old(hidden) + ObstructedIds(root) + AllTargetIds(mainOrgans)
    {
      BuildGroupTargets(wc);
    }

    /** onModelLoaded and the body of processLoadedModel, which touch only the
        model group, the scene and the queue. */
    method BuildGroupTargets(wc: CenterOracle)
      modifies this`groups, this`hidden, this`mainOrgans, this`originalOrganPositions, this`modelLoaded
      ensures modelLoaded
      ensures groups == SimpleGroups(PreOrder(root))
      ensures mainOrgans == old(mainOrgans) + GroupTargets(groups, wc, OrganCount)
      ensures originalOrganPositions == old(originalOrganPositions) + GroupPositions(groups, wc, OrganCount)
      ensures hidden == old(hidden) + ObstructedIds(root) + AllTargetIds(mainOrgans)
    {
      modelLoaded := true;
      ClassifyModel();
      AddGroupTargets(wc);
      HideTargets(mainOrgans);
    }

    // -------------------------------------------------------------------
    // Starting a game: selectDifficulty, resetOrgansForMode, startGame

    /** setupSimpleMode: regroup the traversal (no obstruction rule), hide every
        matched node, and build the grouped targets. */
    method SetupSimpleMode(wc: CenterOracle)
      modifies this`groups, this`hidden, this`mainOrgans, this`originalOrganPositions
      ensures groups == SimpleGroups(PreOrder(root))
      ensures hidden == old(hidden) + IdsOf(Matched(PreOrder(root)))
      ensures mainOrgans == old(mainOrgans) + GroupTargets(groups, wc, OrganCount)
      ensures originalOrganPositions == old(originalOrganPositions) + GroupPositions(groups, wc, OrganCount)
    {
      GroupMatched();
      AddGroupTargets(wc);
    }

    /** The traversal of setupSimpleMode: regroup every node and hide the matched ones. */
    method GroupMatched()
      modifies this`groups, this`hidden
      ensures groups == SimpleGroups(PreOrder(root))
      ensures hidden == old(hidden) + IdsOf(Matched(PreOrder(root)))
    {
      var nodes := PreOrder(root);
      groups := NoGroups;
      assert SimpleGroups(nodes[..0]) == NoGroups;
      var i := 0;
      while i < |nodes|
        invariant 0 <= i <= |nodes|
        invariant groups == SimpleGroups(nodes[..i])
        invariant hidden == old(hidden) + IdsOf(Matched(nodes[..i]))
      {
        GroupNode(nodes, i, old(hidden));
        i := i + 1;
      }
      assert nodes[..i] == nodes;
    }

    /** One step of setupSimpleMode's traversal: the node joins the group of
        the first organ it matches, and a matched node is hidden. */
    method GroupNode(nodes: seq<Node>, i: nat, ghost h0: set<NodeId>)
      requires i < |nodes|
      requires groups == SimpleGroups(nodes[..i]) && hidden == h0 + IdsOf(Matched(nodes[..i]))
      modifies this`groups, this`hidden
      ensures groups == SimpleGroups(nodes[..i + 1]) && hidden == h0 + IdsOf(Matched(nodes[..i + 1]))
    {
      var n := nodes[i];
      var organ := MatchOrgan(n.name);
      SimpleGroupsSnoc(nodes, i);
      groups := AddToGroup(groups, organ, n);
      if organ.Some? {
        hidden := hidden + {n.id};
      }
      MatchedVisit(nodes, i, h0);
    }

    /** setupAdvancedMode: every node whose name carries a listed word becomes a
        target of its own, positioned by getobjectPos, and is hidden. */
    method SetupAdvancedMode(wc: CenterOracle)
      modifies this`hidden, this`mainOrgans, this`originalOrganPositions
      ensures hidden == old(hidden) + AllTargetIds(AdvancedTargets(PreOrder(root)))
      ensures mainOrgans == old(mainOrgans) + AdvancedTargets(PreOrder(root))
      ensures originalOrganPositions == old(originalOrganPositions) + AdvancedPositions(PreOrder(root), wc)
    {
      var nodes := PreOrder(root);
      var i := 0;
      while i < |nodes|
        invariant 0 <= i <= |nodes|
        invariant hidden == old(hidden) + AllTargetIds(AdvancedTargets(nodes[..i]))
        invariant mainOrgans == old(mainOrgans) + AdvancedTargets(nodes[..i])
        invariant originalOrganPositions == old(originalOrganPositions) + AdvancedPositions(nodes[..i], wc)
      {
        var n := nodes[i];
        AdvancedVisit(nodes, wc, i, old(hidden), old(mainOrgans), old(originalOrganPositions));
        if AdvancedMatch(n.name) {
          mainOrgans := mainOrgans + [Single(n)];
          originalOrganPositions := originalOrganPositions[ByNode(n.id) := ObjectPos(n, wc)];
          hidden := hidden + {n.id};
        }
        i := i + 1;
      }
      assert nodes[..i] == nodes;
    }

    /** resetOrgansForMode: hide the previous queue, clear the queue and the
        position table, and rebuild them for the chosen mode. */
    method ResetOrgansForMode(wc: CenterOracle)
      modifies this`groups, this`hidden, this`mainOrgans, this`originalOrganPositions
      ensures mainOrgans == ModeTargets(ModeName(gameMode), root, wc)
      ensures originalOrganPositions == ModePositions(ModeName(gameMode), root, wc)
      ensures hidden == old(hidden) + AllTargetIds(old(mainOrgans)) + ModeHidden(ModeName(gameMode), root)
    {
      HideTargets(mainOrgans);
      mainOrgans := [];
      originalOrganPositions := map[];
      SetupMode(wc);
    }

    /** The setup call of resetOrgansForMode, on an emptied queue and table. */
    method SetupMode(wc: CenterOracle)
      requires mainOrgans == [] && originalOrganPositions == map[]
      modifies this`groups, this`hidden, this`mainOrgans, this`originalOrganPositions
      ensures mainOrgans == ModeTargets(ModeName(gameMode), root, wc)
      ensures originalOrganPositions == ModePositions(ModeName(gameMode), root, wc)
      ensures hidden == old(hidden) + ModeHidden(ModeName(gameMode), root)
    {
      var mode := ModeName(gameMode);
      if mode == "simple" {
        SetupSimpleMode(wc);
        SimpleSetupIsMode(root, wc);
      } else {
        SetupAdvancedMode(wc);
        AdvancedSetupIsMode(mode, root, wc);
      }
    }

    /** startGame: shuffle the queue (Math.random is abstracted to an arbitrary
        permutation), reset the cursor and the timer, start the timer, activate. */
    method StartGame()
      modifies this`mainOrgans, this`currentOrganIndex, this`timerValue, this`timerRunning, this`isGameActive
      ensures multiset(mainOrgans) == multiset(old(mainOrgans))
      ensures currentOrganIndex == 0 && timerValue == 0 && timerRunning && isGameActive
    {
      var shuffled: seq<Target> :| multiset(shuffled) == multiset(mainOrgans);
      mainOrgans := shuffled;
      currentOrganIndex := 0;
      timerValue := 0;
      timerRunning := true;
      isGameActive := true;
    }

    /** The first half of selectDifficulty: record the mode and rebuild the queue. */
    method ChooseMode(mode: string, wc: CenterOracle)
      modifies this`gameMode, this`groups, this`hidden, this`mainOrgans, this`originalOrganPositions
      ensures gameMode == Some(mode)
      ensures mainOrgans == ModeTargets(mode, root, wc)
      ensures originalOrganPositions == ModePositions(mode, root, wc)
      ensures hidden == old(hidden) + AllTargetIds(old(mainOrgans)) + ModeHidden(mode, root)
    {
      gameMode := Some(mode);
      ResetOrgansForMode(wc);
    }

    /** selectDifficulty(mode): record the mode, rebuild the queue for it and start. */
    method SelectDifficulty(mode: string, wc: CenterOracle)
      requires PanelsClosed() && !isGameActive && !timerRunning
      modifies this`gameMode, this`groups, this`hidden, this`mainOrgans, this`originalOrganPositions,
               this`currentOrganIndex, this`timerValue, this`timerRunning, this`isGameActive
      ensures Valid() && CurrentPhase() == Playing
      ensures gameMode == Some(mode)
      ensures multiset(mainOrgans) == multiset(ModeTargets(mode, root, wc))
      ensures originalOrganPositions == ModePositions(mode, root, wc)
      ensures hidden == old(hidden) + AllTargetIds(old(mainOrgans)) + ModeHidden(mode, root)
      ensures currentOrganIndex == 0 && timerValue == 0
    {
      ChooseMode(mode, wc);
      StartGame();
      StartedIsValid(mode, wc);
    }

    /** A placed model with no panel open, no victory pending and no listener
        waiting for a difficulty. */
    ghost predicate PanelsClosed()
      reads this`placed, this`isVictoryAnimationPlaying, this`isMenuVisible, this`isRulesVisible,
            this`difficultyListening, this`victoryPending
    {
      placed && !isVictoryAnimationPlaying && !isMenuVisible && !isRulesVisible
      && !difficultyListening && !victoryPending
    }

    /** Right after startGame the state is valid: the queue is a permutation of
        the targets the mode built, which all have their positions and the
        mode's shape. */
    lemma StartedIsValid(mode: string, wc: CenterOracle)
      requires PanelsClosed() && isGameActive && timerRunning && currentOrganIndex == 0
      requires gameMode == Some(mode)
      requires multiset(mainOrgans) == multiset(ModeTargets(mode, root, wc))
      requires originalOrganPositions == ModePositions(mode, root, wc)
      ensures Valid()
    {
      ModeTargetsKeyed(mode, root, wc);
      forall t | t in mainOrgans ensures KeyOf(t) in originalOrganPositions && (t.Group? <==> IsSimple(gameMode)) {
        assert t in multiset(mainOrgans);
        assert t in ModeTargets(mode, root, wc);
      }
    }

    /** The difficulty panel's `handleSelect`: only the nearest object counts;
        if it is a button, the listener removes itself and the game starts. */
    method HandleSelect(hits: seq<Tag>, wc: CenterOracle) returns (chosen: Option<string>)
      requires Valid() && difficultyListening
      modifies this`difficultyListening, this`gameMode, this`groups, this`hidden, this`mainOrgans,
               this`originalOrganPositions, this`currentOrganIndex, this`timerValue, this`timerRunning,
               this`isGameActive
      ensures Valid()
      ensures chosen == FirstHitButton(hits)
      ensures chosen.Some? ==> CurrentPhase() == Playing && gameMode == chosen
      ensures chosen.Some? ==> currentOrganIndex == 0 && timerValue == 0
      ensures chosen.Some? ==> multiset(mainOrgans) == multiset(ModeTargets(chosen.value, root, wc))
      ensures chosen.Some? ==> originalOrganPositions == ModePositions(chosen.value, root, wc)
      ensures chosen.Some? ==> hidden == old(hidden) + AllTargetIds(old(mainOrgans)) + ModeHidden(chosen.value, root)
      ensures chosen.None? ==> unchanged(this)
    {
      chosen := FirstHitButton(hits);
      if chosen.Some? {
        difficultyListening := false;
        SelectDifficulty(chosen.value, wc);
      }
    }

    // -------------------------------------------------------------------
    // Playing

    /** One tick of the startTimer interval. */
    method TimerTick()
      requires Valid() && timerRunning
      modifies this`timerValue
      ensures Valid() && timerValue == old(timerValue) + 1
    {
      timerValue := timerValue + 1;
    }

    /** A correct placement: each node of the target, in flashing order, is made
        visible and then flashed; createFlashingEffect throws at the first node
        without a material, which is then visible but the rest are not. Returns
        the ids whose flashing started, and whether no throw happened. */
    method RevealTarget(t: Target) returns (flashed: seq<NodeId>, complete: bool)
      modifies this`hidden
      ensures complete <==> FlashableCount(FlashOrder(t)) == |FlashOrder(t)|
      ensures hidden == old(hidden) - IdsOf(Shown(t))
      ensures flashed == FlashedIds(t)
    {
      flashed, complete := RevealNodes(FlashOrder(t));
    }

    /** The loop of RevealTarget over the nodes in flashing order. */
    method RevealNodes(ns: seq<Node>) returns (flashed: seq<NodeId>, complete: bool)
      modifies this`hidden
      ensures var k := FlashableCount(ns);
        (complete <==> k == |ns|)
        && hidden == old(hidden) - IdsOf(if k < |ns| then ns[..k + 1] else ns)
        && flashed == IdSeq(ns[..k])
    {
      ghost var k := FlashableCount(ns);
      flashed := [];
      var j := 0;
      while j < |ns|
        invariant 0 <= j <= k
        invariant hidden == old(hidden) - IdsOf(ns[..j])
        invariant flashed == IdSeq(ns[..j])
      {
        ShowNode(ns, j, old(hidden));
        if !ns[j].hasGeometry {
          return flashed, false;
        }
        IdSeqSnoc(ns, j);
        flashed := flashed + [ns[j].id];
        j := j + 1;
      }
      assert ns[..j] == ns;
      complete := true;
    }

    /** One node of RevealNodes' loop becomes visible. */
    method ShowNode(ns: seq<Node>, j: nat, ghost h0: set<NodeId>)
      requires j < |ns| && hidden == h0 - IdsOf(ns[..j])
      modifies this`hidden
      ensures hidden == h0 - IdsOf(ns[..j + 1])
    {
      hidden := hidden - {ns[j].id};
      assert ns[..j + 1] == ns[..j] + [ns[j]];
      IdsOfAppend(ns[..j], [ns[j]]);
      assert IdsOf([ns[j]]) == {ns[j].id} by { assert [ns[j]][..0] == []; }
    }

    /** handleGameCompletion: the game ends, the timer stops and the victory
        timeout is scheduled. */
    method HandleGameCompletion()
      modifies this`isGameActive, this`timerRunning, this`victoryPending
      ensures !isGameActive && !timerRunning && victoryPending
    {
      isGameActive := false;
      timerRunning := false;
      victoryPending := true;
    }

    /** The decision half of handleOrganPlacement. */
    method HandleOrganPlacement(hitsModel: bool, planeHit: Option<Vec3>)
      returns (outcome: Outcome, flashed: seq<NodeId>)
      requires Valid() && isGameActive
      modifies this`hidden, this`currentOrganIndex, this`isGameActive, this`timerRunning, this`victoryPending
      ensures Valid()
      ensures !hitsModel ==> outcome == Judged(NotOnModel)
      ensures hitsModel && mainOrgans == [] ==> outcome == Fault
      ensures hitsModel && mainOrgans != [] ==>
        var t := mainOrgans[old(currentOrganIndex)];
        var v := Judge(true, planeHit, originalOrganPositions[KeyOf(t)], IsSimple(gameMode));
        outcome == if v == Hit && !Flashable(t) then Fault else Judged(v)
      ensures outcome == Judged(Hit) ==>
        var t := mainOrgans[old(currentOrganIndex)];
        hidden == old(hidden) - TargetIds(t) && flashed == TargetNodes(t)
        && currentOrganIndex == old(currentOrganIndex) + 1
        && (isGameActive <==> currentOrganIndex < |mainOrgans|)
        && (CurrentPhase() == if currentOrganIndex < |mainOrgans| then Playing else Victory)
      ensures outcome == Fault && mainOrgans != [] ==>
        var t := mainOrgans[old(currentOrganIndex)];
        hidden == old(hidden) - IdsOf(Shown(t)) && flashed == FlashedIds(t)
      ensures outcome != Judged(Hit) ==>
        currentOrganIndex == old(currentOrganIndex)
        && isGameActive && timerRunning && victoryPending == old(victoryPending)
      ensures (outcome.Judged? && outcome != Judged(Hit)) || mainOrgans == [] ==>
        flashed == [] && hidden == old(hidden)
    {
      flashed := [];
      if !hitsModel {
        return Judged(NotOnModel), [];
      }
      if currentOrganIndex >= |mainOrgans| {
        return Fault, [];
      }
      var t := mainOrgans[currentOrganIndex];
      var target := originalOrganPositions[KeyOf(t)];
      var verdict := Judge(true, planeHit, target, IsSimple(gameMode));
      outcome := Judged(verdict);
      if verdict == Hit {
        var complete;
        flashed, complete := AcceptPlacement();
        if !complete {
          outcome := Fault;
        }
      }
    }

    /** A correct placement of the current target: reveal and flash it, then
        advance the cursor and end the round after the last target. A throw in
        createFlashingEffect stops it before the cursor moves. */
    method AcceptPlacement() returns (flashed: seq<NodeId>, complete: bool)
      requires Valid() && isGameActive && currentOrganIndex < |mainOrgans|
      modifies this`hidden, this`currentOrganIndex, this`isGameActive, this`timerRunning, this`victoryPending
      ensures Valid()
      ensures complete <==> Flashable(mainOrgans[old(currentOrganIndex)])
      ensures complete ==>
        var t := mainOrgans[old(currentOrganIndex)];
        hidden == old(hidden) - TargetIds(t) && flashed == TargetNodes(t)
        && currentOrganIndex == old(currentOrganIndex) + 1
        && (isGameActive <==> currentOrganIndex < |mainOrgans|)
        && (CurrentPhase() == if currentOrganIndex < |mainOrgans| then Playing else Victory)
      ensures !complete ==>
        var t := mainOrgans[old(currentOrganIndex)];
        hidden == old(hidden) - IdsOf(Shown(t)) && flashed == FlashedIds(t)
        && currentOrganIndex == old(currentOrganIndex)
        && isGameActive && timerRunning && victoryPending == old(victoryPending)
    {
      flashed, complete := RevealCurrent();
      if complete {
        Advance();
      }
    }

    /** The reveal half of a correct placement: only `hidden` changes, and it
        only shrinks, so the invariant survives. */
    method RevealCurrent() returns (flashed: seq<NodeId>, complete: bool)
      requires Valid() && isGameActive && currentOrganIndex < |mainOrgans|
      modifies this`hidden
      ensures Valid()
      ensures complete <==> Flashable(mainOrgans[currentOrganIndex])
      ensures complete ==>
        hidden == old(hidden) - TargetIds(mainOrgans[currentOrganIndex])
        && flashed == TargetNodes(mainOrgans[currentOrganIndex])
      ensures !complete ==>
        hidden == old(hidden) - IdsOf(Shown(mainOrgans[currentOrganIndex]))
        && flashed == FlashedIds(mainOrgans[currentOrganIndex])
    {
      var t := mainOrgans[currentOrganIndex];
      flashed, complete := RevealTarget(t);
      FlashableReveal(t);
    }

    /** The cursor moves past a target that is now shown; after the last one
        handleGameCompletion runs. */
    method Advance()
      requires Valid() && isGameActive && currentOrganIndex < |mainOrgans|
      requires TargetIds(mainOrgans[currentOrganIndex]) !! hidden
      modifies this`currentOrganIndex, this`isGameActive, this`timerRunning, this`victoryPending
      ensures Valid()
      ensures currentOrganIndex == old(currentOrganIndex) + 1
      ensures isGameActive <==> currentOrganIndex < |mainOrgans|
      ensures CurrentPhase() == if currentOrganIndex < |mainOrgans| then Playing else Victory
    {
      currentOrganIndex := currentOrganIndex + 1;
      if currentOrganIndex >= |mainOrgans| {
        HandleGameCompletion();
      }
    }

    /** The victory timeout: the menu is shown again. */
    method VictoryTimeout()
      requires Valid() && victoryPending
      modifies this`victoryPending, this`isMenuVisible
      ensures Valid() && CurrentPhase() == Menu
    {
      victoryPending := false;
      isMenuVisible := true;
    }

    // -------------------------------------------------------------------
    // Menus

    /** showRules: the rules panel replaces the menu. */
    method ShowRules()
      modifies this`isMenuVisible, this`isRulesVisible
      ensures !isMenuVisible && isRulesVisible
    {
      isMenuVisible := false;
      isRulesVisible := true;
    }

    /** showMenu: the menu replaces the rules panel. */
    method ShowMenu()
      modifies this`isMenuVisible, this`isRulesVisible
      ensures isMenuVisible && !isRulesVisible
    {
      isRulesVisible := false;
      isMenuVisible := true;
    }

    /** handleMenuAction: `start` hides the menu and opens the difficulty panel,
        `rules` and `back` switch panels; `settings` changes no state. */
    method HandleMenuAction(action: string)
      modifies this`isMenuVisible, this`isRulesVisible, this`difficultyListening
      ensures action == "start" ==>
        !isMenuVisible && isRulesVisible == old(isRulesVisible) && difficultyListening
      ensures action == "rules" ==> !isMenuVisible && isRulesVisible && difficultyListening == old(difficultyListening)
      ensures action == "back" ==> isMenuVisible && !isRulesVisible && difficultyListening == old(difficultyListening)
      ensures action != "start" && action != "rules" && action != "back" ==> unchanged(this)
    {
      if action == "start" {
        isMenuVisible := false;
        difficultyListening := true;
      } else if action == "rules" {
        ShowRules();
      } else if action == "back" {
        ShowMenu();
      }
    }

    /** onSelect: route the event, as RouteOf says, and act on it. */
    method OnSelect(input: SelectInput) returns (route: Route, outcome: Option<Outcome>, flashed: seq<NodeId>)
      requires Valid() && PanelsConsistent(input)
      modifies this`placed, this`isMenuVisible, this`isRulesVisible, this`difficultyListening, this`hidden,
               this`currentOrganIndex, this`isGameActive, this`timerRunning, this`victoryPending
      ensures Valid()
      ensures route == RouteOf(old(isVictoryAnimationPlaying), old(placed), old(isGameActive),
                               old(isMenuVisible), old(isRulesVisible), input)
      ensures old(placed) ==> placed
      ensures route == PlaceModel ==> old(CurrentPhase()) == Unplaced
      ensures route == PlaceModel && modelLoaded ==> CurrentPhase() == Menu
      ensures route == PlaceModel && !modelLoaded ==> unchanged(this)
      ensures route == Ignored || route == NoButton ==> unchanged(this)
      ensures route == MenuAction("start") ==> old(CurrentPhase()) == Menu && CurrentPhase() == ChoosingDifficulty
      ensures route == MenuAction("rules") ==> old(CurrentPhase()) == Menu && CurrentPhase() == Rules
      ensures route == MenuAction("back") ==> old(CurrentPhase()) == Rules && CurrentPhase() == Menu
      ensures route == MenuAction("settings") ==> unchanged(this)
      ensures outcome.Some? <==> route == Placement
      ensures route != Placement ==> hidden == old(hidden) && currentOrganIndex == old(currentOrganIndex) && flashed == []
      ensures route == Placement && outcome != Some(Judged(Hit)) ==>
        currentOrganIndex == old(currentOrganIndex) && CurrentPhase() == Playing
      ensures route == Placement && outcome != Some(Judged(Hit)) && (outcome != Some(Fault) || mainOrgans == []) ==>
        hidden == old(hidden) && flashed == []
      ensures outcome == Some(Fault) && mainOrgans != [] ==>
        old(currentOrganIndex) < |mainOrgans|
        && hidden == old(hidden) - IdsOf(Shown(mainOrgans[old(currentOrganIndex)]))
        && flashed == FlashedIds(mainOrgans[old(currentOrganIndex)])
      ensures outcome == Some(Judged(Hit)) ==>
        old(currentOrganIndex) < |mainOrgans|
        && hidden == old(hidden) - TargetIds(mainOrgans[old(currentOrganIndex)])
        && flashed == TargetNodes(mainOrgans[old(currentOrganIndex)])
        && currentOrganIndex == old(currentOrganIndex) + 1
        && CurrentPhase() == (if currentOrganIndex < |mainOrgans| then Playing else Victory)
    {
      route := RouteOf(isVictoryAnimationPlaying, placed, isGameActive, isMenuVisible, isRulesVisible, input);
      outcome := None;
      flashed := [];
      if isVictoryAnimationPlaying {
        return;
      }
      if input.reticleVisible && !placed {
        if modelLoaded {
          PutModel();
        }
      } else if isGameActive {
        var o;
        o, flashed := HandleOrganPlacement(input.hitsModel, input.planeHit);
        outcome := Some(o);
      } else {
        var _ := SelectOnPanel(input);
      }
    }

    /** The first branch of onSelect: the model is put on the surface the
        reticle shows, and the menu opens. */
    method PutModel()
      requires Valid() && !placed && modelLoaded
      modifies this`placed, this`isMenuVisible
      ensures Valid() && placed && CurrentPhase() == Menu
    {
      placed := true;
      isMenuVisible := true;
    }

    /** The last branch of onSelect: the ray is cast against the open panel
        (the menu before the rules), and the first button met acts. */
    method SelectOnPanel(input: SelectInput) returns (action: Option<string>)
      requires Valid() && !isGameActive && PanelsConsistent(input)
      modifies this`isMenuVisible, this`isRulesVisible, this`difficultyListening
      ensures Valid()
      ensures action == FirstButton(if old(isMenuVisible) then input.menuHits
                                    else if old(isRulesVisible) then input.rulesHits else [])
      ensures action.None? || action == Some("settings") ==> unchanged(this)
      ensures action == Some("start") ==> old(CurrentPhase()) == Menu && CurrentPhase() == ChoosingDifficulty
      ensures action == Some("rules") ==> old(CurrentPhase()) == Menu && CurrentPhase() == Rules
      ensures action == Some("back") ==> old(CurrentPhase()) == Rules && CurrentPhase() == Menu
    {
      var hits := if isMenuVisible then input.menuHits else if isRulesVisible then input.rulesHits else [];
      action := FirstButton(hits);
      if action.Some? {
        HandleMenuAction(action.value);
      }
    }

    /** One select event as three.js dispatches it: onSelect, registered first,
        then the difficulty listener if it was registered when the event began
        (dispatchEvent iterates over a copy of the listener array). */
    method DispatchSelect(input: SelectInput)
      returns (route: Route, outcome: Option<Outcome>, flashed: seq<NodeId>, chosen: Option<string>)
      requires Valid() && PanelsConsistent(input)
      modifies this`placed, this`isMenuVisible, this`isRulesVisible, this`difficultyListening, this`hidden,
               this`currentOrganIndex, this`isGameActive, this`timerRunning, this`victoryPending,
               this`gameMode, this`groups, this`mainOrgans, this`originalOrganPositions, this`timerValue
      ensures Valid()
      // No difficulty listener: the event is onSelect's alone.
      ensures !old(difficultyListening) ==>
        chosen == None
        && route == RouteOf(old(isVictoryAnimationPlaying), old(placed), old(isGameActive),
                            old(isMenuVisible), old(isRulesVisible), input)
        && mainOrgans == old(mainOrgans) && originalOrganPositions == old(originalOrganPositions)
        && gameMode == old(gameMode) && groups == old(groups) && timerValue == old(timerValue)
        && currentOrganIndex == old(currentOrganIndex) + (if outcome == Some(Judged(Hit)) then 1 else 0)
        && (route != Placement ==> hidden == old(hidden) && flashed == [])
      ensures !old(difficultyListening) && route == PlaceModel ==> old(CurrentPhase()) == Unplaced
      ensures !old(difficultyListening) && route == PlaceModel && modelLoaded ==> CurrentPhase() == Menu
      ensures !old(difficultyListening) && route == PlaceModel && !modelLoaded ==> unchanged(this)
      ensures !old(difficultyListening) && (route == Ignored || route == NoButton || route == MenuAction("settings")) ==>
        unchanged(this)
      ensures !old(difficultyListening) && route == MenuAction("start") ==>
        old(CurrentPhase()) == Menu && CurrentPhase() == ChoosingDifficulty
      ensures !old(difficultyListening) && route == MenuAction("rules") ==>
        old(CurrentPhase()) == Menu && CurrentPhase() == Rules
      ensures !old(difficultyListening) && route == MenuAction("back") ==>
        old(CurrentPhase()) == Rules && CurrentPhase() == Menu
      ensures !old(difficultyListening) ==> (outcome.Some? <==> route == Placement)
      ensures !old(difficultyListening) && route == Placement && outcome != Some(Judged(Hit)) ==>
        CurrentPhase() == Playing
      ensures !old(difficultyListening) && route == Placement && outcome != Some(Judged(Hit))
              && (outcome != Some(Fault) || mainOrgans == []) ==>
        hidden == old(hidden) && flashed == []
      ensures !old(difficultyListening) && outcome == Some(Fault) && mainOrgans != [] ==>
        old(currentOrganIndex) < |mainOrgans|
        && hidden == old(hidden) - IdsOf(Shown(mainOrgans[old(currentOrganIndex)]))
        && flashed == FlashedIds(mainOrgans[old(currentOrganIndex)])
      ensures !old(difficultyListening) && outcome == Some(Judged(Hit)) ==>
        old(currentOrganIndex) < |mainOrgans|
        && hidden == old(hidden) - TargetIds(mainOrgans[old(currentOrganIndex)])
        && flashed == TargetNodes(mainOrgans[old(currentOrganIndex)])
        && CurrentPhase() == (if currentOrganIndex < |mainOrgans| then Playing else Victory)
      // The difficulty panel is open: onSelect finds no panel to act on, and the
      // listener decides.
      ensures old(difficultyListening) ==>
        route == NoButton && outcome == None && flashed == []
        && chosen == FirstHitButton(input.difficultyHits)
      ensures old(difficultyListening) && chosen.None? ==> unchanged(this)
      ensures chosen.Some? ==>
        CurrentPhase() == Playing && gameMode == chosen && currentOrganIndex == 0 && timerValue == 0
        && multiset(mainOrgans) == multiset(ModeTargets(chosen.value, root, input.centers))
        && originalOrganPositions == ModePositions(chosen.value, root, input.centers)
        && hidden == old(hidden) + AllTargetIds(old(mainOrgans)) + ModeHidden(chosen.value, root)
    {
      if difficultyListening {
        route, outcome, flashed, chosen := ListenedSelect(input);
      } else {
        route, outcome, flashed := OnSelect(input);
        chosen := None;
      }
    }

    /** A select event while the difficulty listener is registered: onSelect
        runs first and finds nothing to do, then the listener takes the event. */
    method ListenedSelect(input: SelectInput)
      returns (route: Route, outcome: Option<Outcome>, flashed: seq<NodeId>, chosen: Option<string>)
      requires Valid() && PanelsConsistent(input) && difficultyListening
      modifies this`placed, this`isMenuVisible, this`isRulesVisible, this`difficultyListening, this`hidden,
               this`currentOrganIndex, this`isGameActive, this`timerRunning, this`victoryPending,
               this`gameMode, this`groups, this`mainOrgans, this`originalOrganPositions, this`timerValue
      ensures Valid()
      ensures route == NoButton && outcome == None && flashed == []
      ensures chosen == FirstHitButton(input.difficultyHits)
      ensures chosen.None? ==> unchanged(this)
      ensures chosen.Some? ==>
        CurrentPhase() == Playing && gameMode == chosen && currentOrganIndex == 0 && timerValue == 0
        && multiset(mainOrgans) == multiset(ModeTargets(chosen.value, root, input.centers))
        && originalOrganPositions == ModePositions(chosen.value, root, input.centers)
        && hidden == old(hidden) + AllTargetIds(old(mainOrgans)) + ModeHidden(chosen.value, root)
    {
      route, outcome, flashed := OnSelect(input);
      chosen := HandleSelect(input.difficultyHits, input.centers);
    }
  }

  /** The loop step of setupSimpleMode on the hidden ids. */
  lemma MatchedVisit(nodes: seq<Node>, i: nat, h0: set<NodeId>)
    requires i < |nodes|
    ensures OrganOf(nodes[i].name).Some? ==>
      h0 + IdsOf(Matched(nodes[..i])) + {nodes[i].id} == h0 + IdsOf(Matched(nodes[..i + 1]))
    ensures OrganOf(nodes[i].name).None? ==>
      h0 + IdsOf(Matched(nodes[..i])) == h0 + IdsOf(Matched(nodes[..i + 1]))
  {
    MatchedSnoc(nodes, i);
    var m := Matched(nodes[..i]);
    if OrganOf(nodes[i].name).Some? {
      IdsOfAppend(m, [nodes[i]]);
      assert IdsOf([nodes[i]]) == {nodes[i].id} by { assert [nodes[i]][..0] == []; }
    } else {
      assert m + [] == m;
    }
  }

  /** The loop step of setupAdvancedMode, on the three things it extends. */
  lemma AdvancedVisit(nodes: seq<Node>, wc: CenterOracle, i: nat,
                      h0: set<NodeId>, m0: seq<Target>, p0: map<Key, Vec3>)
    requires i < |nodes|
    ensures var n := nodes[i];
      AdvancedMatch(n.name) ==>
        h0 + AllTargetIds(AdvancedTargets(nodes[..i])) + {n.id} == h0 + AllTargetIds(AdvancedTargets(nodes[..i + 1]))
        && m0 + AdvancedTargets(nodes[..i]) + [Single(n)] == m0 + AdvancedTargets(nodes[..i + 1])
        && (p0 + AdvancedPositions(nodes[..i], wc))[ByNode(n.id) := ObjectPos(n, wc)]
           == p0 + AdvancedPositions(nodes[..i + 1], wc)
    ensures var n := nodes[i];
      !AdvancedMatch(n.name) ==>
        h0 + AllTargetIds(AdvancedTargets(nodes[..i])) == h0 + AllTargetIds(AdvancedTargets(nodes[..i + 1]))
        && m0 + AdvancedTargets(nodes[..i]) == m0 + AdvancedTargets(nodes[..i + 1])
        && p0 + AdvancedPositions(nodes[..i], wc) == p0 + AdvancedPositions(nodes[..i + 1], wc)
  {
    AdvancedSnoc(nodes, wc, i);
  }

  /** Every target a mode builds has its position recorded, and its shape
      matches the mode: a group in simple mode, a single node otherwise. */
  lemma ModeTargetsKeyed(mode: string, root: Node, wc: CenterOracle)
    ensures forall t :: t in ModeTargets(mode, root, wc) ==>
      KeyOf(t) in ModePositions(mode, root, wc) && (t.Group? <==> mode == "simple")
  {
    if mode == "simple" {
      GroupTargetsKeyed(SimpleGroups(PreOrder(root)), wc, OrganCount);
    } else {
      AdvancedTargetsKeyed(PreOrder(root), wc);
      forall t | t in AdvancedTargets(PreOrder(root)) ensures t.Single? {
        AdvancedTargetsIff(PreOrder(root), Node(0, "", false, []));
      }
    }
  }
}
