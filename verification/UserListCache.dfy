/** The panel client's conditional user-list cache and its one-slot hand-off from node to user requests. */
module UserListCache {
  import opened Api

  datatype NodeType = V2ray | Trojan | Shadowsocks | Unsupported

  type List = seq<UserInfo>

  /** What one request for the user list meets; the empty tag stands for an absent header. */
  datatype Reply =
    | NetworkError
    | ErrorStatus
    | InvalidBody
    | NotModified
    | Success(list: List, etag: string)

  datatype NodeInfo = NodeInfo(nodeType: NodeType, nodeId: int, port: nat, transport: string, cipher: string)

  datatype Pending = Pending(users: List, same: bool)

  datatype Client = Client(etag: string, last: Option<List>, pending: Option<Pending>, node: Option<NodeInfo>)

  datatype Answer = Failed | NoChange | Users(list: List)

  const FRESH := Client("", None, None, None)

  /******* The calls as functions of the client's state *******/

  function Fetch(kind: NodeType, c: Client, reply: Reply): (Client, Answer) {
    if kind == Unsupported then (c, Failed)
    else match reply
      case NotModified => (c, if c.last.Some? then NoChange else Failed)
      case Success(list, etag) => (c.(etag := etag, last := Some(list)), Users(list))
      case _ => (c, Failed)
  }

  function Built(id: int, list: List): NodeInfo
    requires list != []
  {
    NodeInfo(Shadowsocks, id, list[0].port, "tcp", list[0].cipher)
  }

  /** A Shadowsocks node request: fetch, take the node from the head of the list, park the list for the user request. */
  function FetchNode(id: int, c: Client, reply: Reply): (Client, Option<NodeInfo>) {
    var (c1, answer) := Fetch(Shadowsocks, c, reply);
    if answer == Failed || c1.last.None? then (c1, None)
    else
      var list := c1.last.value;
      var node := if list != [] then Some(Built(id, list)) else c1.node;
      (if node.None? then c1 else c1.(node := node, pending := Some(Pending(list, answer == NoChange))), node)
  }

  function GetUsers(kind: NodeType, c: Client, reply: Reply): (Client, Answer) {
    if kind == Shadowsocks && c.pending.Some? then
      (c.(pending := None), if c.pending.value.same then NoChange else Users(c.pending.value.users))
    else
      Fetch(kind, c, reply)
  }

  /******* The client object *******/

  class APIClient {
    const nodeType: NodeType
    const nodeId: int
    var userETag: string
    var lastUserList: Option<List>
    var ssPending: Option<Pending>
    var lastSSNodeInfo: Option<NodeInfo>

    ghost function State(): Client
      reads this
    {
      Client(userETag, lastUserList, ssPending, lastSSNodeInfo)
    }

    constructor (nodeType: NodeType, nodeId: int)
      ensures State() == FRESH && this.nodeType == nodeType && this.nodeId == nodeId
    {
      this.nodeType := nodeType;
      this.nodeId := nodeId;
      userETag := "";
      lastUserList := None;
      ssPending := None;
      lastSSNodeInfo := None;
    }

    /** The tag and the list are published together, after the whole response was read. */
    method FetchUserListLocked(reply: Reply) returns (list: Option<List>, same: bool)
      modifies this`userETag, this`lastUserList
      ensures var (after, answer) := Fetch(nodeType, old(State()), reply);
        && State() == after
        && (list.None? <==> answer == Failed)
        && (same <==> answer == NoChange)
        && (list.Some? ==> list == after.last)
    {
      if nodeType == Unsupported {
        return None, false;
      }
      match reply
      case NetworkError =>
        return None, false;
      case ErrorStatus =>
        return None, false;
      case InvalidBody =>
        return None, false;
      case NotModified =>
        return lastUserList, lastUserList.Some?;
      case Success(users, etag) =>
        userETag := etag;
        lastUserList := Some(users);
        return lastUserList, false;
    }

    method BuildOrReuse(users: List) returns (node: Option<NodeInfo>)
      modifies this`lastSSNodeInfo
      ensures users != [] ==>
        node == Some(NodeInfo(Shadowsocks, nodeId, users[0].port, "tcp", users[0].cipher))
      ensures users == [] ==> node == old(lastSSNodeInfo)
      ensures lastSSNodeInfo == node
    {
      if |users| > 0 {
        lastSSNodeInfo := Some(NodeInfo(Shadowsocks, nodeId, users[0].port, "tcp", users[0].cipher));
      }
      return lastSSNodeInfo;
    }

    method FetchSSNodeResponse(reply: Reply) returns (node: Option<NodeInfo>)
      requires nodeType == Shadowsocks
      modifies this
      ensures (State(), node) == FetchNode(nodeId, old(State()), reply)
    {
      var list, same := FetchUserListLocked(reply);
      if list.None? {
        return None;
      }
      node := BuildOrReuse(list.value);
      if node.None? {
        return None;
      }
      ssPending := Some(Pending(list.value, same));
    }

    method GetUserList(reply: Reply) returns (answer: Answer)
      modifies this
      ensures (State(), answer) == GetUsers(nodeType, old(State()), reply)
    {
      if nodeType == Shadowsocks && ssPending.Some? {
        var pending := ssPending.value;
        ssPending := None;
        return if pending.same then NoChange else Users(pending.users);
      }
      var list, same := FetchUserListLocked(reply);
      return if list.None? then Failed else if same then NoChange else Users(list.value);
    }
  }

  /******* Runs against an honest panel *******/

  /**
   * One call by the controller. `panel` is the list the panel holds when a request reaches it; `nodeOk` is the
   * fate of the separate node request that other node types make.
   */
  datatype Call = NodeCall(panel: List, reply: Reply, nodeOk: bool) | UsersCall(panel: List, reply: Reply)

  /**
   * History beside the client: the list last delivered, the panel's list at the last successful fetch, the latest
   * non-empty list fetched, whether the previous call was a node call that succeeded, and what the last call returned.
   */
  datatype World = World(
    client: Client,
    delivered: Option<List>,
    seen: Option<List>,
    nonEmpty: Option<List>,
    nodeReady: bool,
    answer: Option<Answer>,
    node: Option<NodeInfo>)

  const START := World(FRESH, None, None, None, false, None, None)

  /**
   * The panel keeps sections 13.1.2 and 15.4.5 of RFC 9110: a tag names one list for good, a full answer carries the
   * current list, and "not modified" is only said when the validator sent names the current list.
   */
  predicate Honest(tags: map<string, List>, validator: string, panel: List, reply: Reply) {
    match reply
    case NotModified => validator != "" && validator in tags && tags[validator] == panel
    case Success(list, etag) => list == panel && (etag != "" ==> etag in tags && tags[etag] == panel)
    case _ => true
  }

  /** A fetch that brought a list, or a confirmation, records what the panel held. */
  function Saw(w: World, kind: NodeType, c: Client, panel: List, reply: Reply): World {
    if Fetch(kind, c, reply).1 == Failed then w
    else w.(seen := Some(panel), nonEmpty := if panel != [] then Some(panel) else w.nonEmpty)
  }

  function Apply(kind: NodeType, id: int, w: World, call: Call): World {
    match call
    case NodeCall(panel, reply, nodeOk) =>
      if kind == Shadowsocks then
        var (client, node) := FetchNode(id, w.client, reply);
        Saw(w, kind, w.client, panel, reply).(client := client, nodeReady := node.Some?, answer := None, node := node)
      else
        w.(nodeReady := nodeOk && kind != Unsupported, answer := None, node := None)
    case UsersCall(panel, reply) =>
      var (client, answer) := GetUsers(kind, w.client, reply);
      var w1 := if kind == Shadowsocks && w.client.pending.Some? then w else Saw(w, kind, w.client, panel, reply);
      w1.(client := client, nodeReady := false, answer := Some(answer), node := None,
          delivered := if answer.Users? then Some(answer.list) else w.delivered)
  }

  function After(kind: NodeType, id: int, run: seq<Call>): World {
    if run == [] then START else Apply(kind, id, After(kind, id, run[..|run| - 1]), run[|run| - 1])
  }

  predicate HonestRun(kind: NodeType, id: int, tags: map<string, List>, run: seq<Call>) {
    forall n :: 0 <= n < |run| ==>
      Honest(tags, After(kind, id, run[..n]).client.etag, run[n].panel, run[n].reply)
  }

  /******* The validator belongs to the cached list *******/

  predicate Coherent(kind: NodeType, w: World, tags: map<string, List>) {
    && (w.client.etag != "" ==>
      w.client.last.Some? && w.client.etag in tags && tags[w.client.etag] == w.client.last.value)
    && w.seen == w.client.last
    && (w.client.pending.Some? ==>
      kind == Shadowsocks && w.client.node.Some? && w.client.last == Some(w.client.pending.value.users))
  }

  lemma StepCoherent(kind: NodeType, id: int, w: World, call: Call, tags: map<string, List>)
    requires Coherent(kind, w, tags) && Honest(tags, w.client.etag, call.panel, call.reply)
    ensures Coherent(kind, Apply(kind, id, w, call), tags)
  {
  }

  lemma HonestPrefix(kind: NodeType, id: int, tags: map<string, List>, run: seq<Call>)
    requires HonestRun(kind, id, tags, run) && run != []
    ensures HonestRun(kind, id, tags, run[..|run| - 1])
    ensures Honest(tags, After(kind, id, run[..|run| - 1]).client.etag, run[|run| - 1].panel, run[|run| - 1].reply)
  {
    var before := run[..|run| - 1];
    forall n | 0 <= n < |before|
      ensures Honest(tags, After(kind, id, before[..n]).client.etag, before[n].panel, before[n].reply)
    {
      assert before[..n] == run[..n];
    }
  }

  /** In any order of calls a validator names the cached list, and the cached list is what the panel last showed. */
  lemma {:induction false} ValidatorNamesCachedList(kind: NodeType, id: int, tags: map<string, List>, run: seq<Call>)
    requires HonestRun(kind, id, tags, run)
    ensures Coherent(kind, After(kind, id, run), tags)
  {
    hide Apply, HonestRun, Honest;
    if run != [] {
      HonestPrefix(kind, id, tags, run);
      ValidatorNamesCachedList(kind, id, tags, run[..|run| - 1]);
      StepCoherent(kind, id, After(kind, id, run[..|run| - 1]), run[|run| - 1], tags);
    }
  }

  /** Whether a call asks the panel for the user list. */
  predicate Fetches(kind: NodeType, c: Client, call: Call) {
    match kind
    case Unsupported => false
    case Shadowsocks => call.NodeCall? || c.pending.None?
    case _ => call.UsersCall?
  }

  /** The last request for the list that was answered in full. */
  function LastFull(kind: NodeType, id: int, run: seq<Call>): Option<Reply> {
    if run == [] then None
    else
      var before, last := run[..|run| - 1], run[|run| - 1];
      if Fetches(kind, After(kind, id, before).client, last) && last.reply.Success? then Some(last.reply)
      else LastFull(kind, id, before)
  }

  /**
   * Failed and unchanged fetches, parked answers and calls in any order change neither: validator and list are those
   * of the last request that was answered in full.
   */
  lemma {:induction false} FailureChangesNeither(kind: NodeType, id: int, run: seq<Call>)
    ensures var c := After(kind, id, run).client;
      match LastFull(kind, id, run)
      case None => c.etag == "" && c.last == None
      case Some(reply) => reply.Success? && c.etag == reply.etag && c.last == Some(reply.list)
  {
    if run != [] {
      FailureChangesNeither(kind, id, run[..|run| - 1]);
    }
  }

  /******* "No change" means no change *******/

  /**
   * What the answers need of a caller while it lacks the cached list and holds a validator for it: no node request
   * over a changed list that still waits, and no user request before a node request has succeeded.
   */
  predicate Orderly(kind: NodeType, w: World, call: Call) {
    kind == Shadowsocks && w.delivered != w.client.last && w.client.etag != "" ==>
      match call
      case NodeCall(_, _, _) => w.client.pending.Some? ==> w.client.pending.value.same
      case UsersCall(_, _) => w.client.node.Some?
  }

  /** The controller's loop: a user request follows exactly when the node request succeeded. */
  predicate ControllerOrder(w: World, call: Call) {
    call.UsersCall? <==> w.nodeReady
  }

  predicate OrderlyRun(kind: NodeType, id: int, run: seq<Call>) {
    forall n :: 0 <= n < |run| ==> Orderly(kind, After(kind, id, run[..n]), run[n])
  }

  predicate ControllerRun(kind: NodeType, id: int, run: seq<Call>) {
    forall n :: 0 <= n < |run| ==> ControllerOrder(After(kind, id, run[..n]), run[n])
  }

  /** The cached list is delivered, or waits as a change, or is an empty list no node request could use yet. */
  predicate Settled(kind: NodeType, w: World) {
    || w.delivered == w.client.last
    || (kind == Shadowsocks && w.client.pending.Some? && !w.client.pending.value.same)
    || (kind == Shadowsocks && w.client.node.None? && w.client.last == Some([]))
  }

  lemma StepSettled(kind: NodeType, id: int, w: World, call: Call, tags: map<string, List>)
    requires Coherent(kind, w, tags) && Settled(kind, w) && Orderly(kind, w, call)
    requires Honest(tags, w.client.etag, call.panel, call.reply)
    ensures Settled(kind, Apply(kind, id, w, call))
    ensures Apply(kind, id, w, call).answer == Some(NoChange) ==>
      Apply(kind, id, w, call).delivered == Apply(kind, id, w, call).client.last
  {
  }

  lemma OrderlyPrefix(kind: NodeType, id: int, run: seq<Call>)
    requires OrderlyRun(kind, id, run) && run != []
    ensures OrderlyRun(kind, id, run[..|run| - 1])
    ensures Orderly(kind, After(kind, id, run[..|run| - 1]), run[|run| - 1])
  {
    var before := run[..|run| - 1];
    forall n | 0 <= n < |before|
      ensures Orderly(kind, After(kind, id, before[..n]), before[n])
    {
      assert before[..n] == run[..n];
    }
  }

  lemma {:induction false} RunSettled(kind: NodeType, id: int, tags: map<string, List>, run: seq<Call>)
    requires HonestRun(kind, id, tags, run) && OrderlyRun(kind, id, run)
    ensures Settled(kind, After(kind, id, run))
  {
    hide Apply, HonestRun, Honest, OrderlyRun, Orderly, Coherent;
    if run != [] {
      HonestPrefix(kind, id, tags, run);
      OrderlyPrefix(kind, id, run);
      RunSettled(kind, id, tags, run[..|run| - 1]);
      ValidatorNamesCachedList(kind, id, tags, run[..|run| - 1]);
      StepSettled(kind, id, After(kind, id, run[..|run| - 1]), run[|run| - 1], tags);
    }
  }

  /** After orderly calls, "users no change" says that the list last delivered is the panel's list at that fetch. */
  lemma NoChangeIsTrue(kind: NodeType, id: int, tags: map<string, List>, run: seq<Call>)
    requires HonestRun(kind, id, tags, run) && OrderlyRun(kind, id, run)
    requires After(kind, id, run).answer == Some(NoChange)
    ensures After(kind, id, run).delivered.Some?
    ensures After(kind, id, run).delivered == After(kind, id, run).seen
  {
    hide Apply, HonestRun, Honest, OrderlyRun, Orderly, Settled;
    if run != [] {
      HonestPrefix(kind, id, tags, run);
      OrderlyPrefix(kind, id, run);
      RunSettled(kind, id, tags, run[..|run| - 1]);
      ValidatorNamesCachedList(kind, id, tags, run[..|run| - 1]);
      ValidatorNamesCachedList(kind, id, tags, run);
      StepSettled(kind, id, After(kind, id, run[..|run| - 1]), run[|run| - 1], tags);
      NoChangeHasList(kind, id, After(kind, id, run[..|run| - 1]), run[|run| - 1], tags);
    }
  }

  lemma NoChangeHasList(kind: NodeType, id: int, w: World, call: Call, tags: map<string, List>)
    requires Coherent(kind, w, tags)
    requires Apply(kind, id, w, call).answer == Some(NoChange)
    ensures Apply(kind, id, w, call).client.last.Some?
  {
  }

  lemma HonestSnoc(kind: NodeType, id: int, tags: map<string, List>, run: seq<Call>, call: Call)
    requires HonestRun(kind, id, tags, run)
    requires Honest(tags, After(kind, id, run).client.etag, call.panel, call.reply)
    ensures HonestRun(kind, id, tags, run + [call])
    ensures After(kind, id, run + [call]) == Apply(kind, id, After(kind, id, run), call)
  {
    hide Apply, Honest;
    var longer := run + [call];
    assert longer[..|run|] == run;
    forall n | 0 <= n < |longer|
      ensures Honest(tags, After(kind, id, longer[..n]).client.etag, longer[n].panel, longer[n].reply)
    {
      if n < |run| {
        assert longer[..n] == run[..n];
      }
    }
  }

  /** Both ways to break the order, in any state an honest panel can lead to. */
  lemma DisorderStep(id: int, w: World, tags: map<string, List>, call: Call)
    requires Coherent(Shadowsocks, w, tags) && !Orderly(Shadowsocks, w, call)
    ensures w.client.last.Some? && Honest(tags, w.client.etag, w.client.last.value, NotModified)
    ensures var w1 := Apply(Shadowsocks, id, w, call.(panel := w.client.last.value, reply := NotModified));
      var w2 := Apply(Shadowsocks, id, w1, UsersCall([], NetworkError));
      if call.NodeCall? then w2.answer == Some(NoChange) && w2.delivered != w2.seen
      else w1.answer == Some(NoChange) && w1.delivered != w1.seen
  {
  }

  /**
   * The condition is exact: after any honest run, a call that breaks the order lets the panel, honest and with its list
   * unchanged, bring the client to answer "no change" about a list it did not deliver.
   */
  lemma DisorderLosesAChange(id: int, tags: map<string, List>, run: seq<Call>, call: Call) returns (longer: seq<Call>)
    requires HonestRun(Shadowsocks, id, tags, run) && !Orderly(Shadowsocks, After(Shadowsocks, id, run), call)
    ensures HonestRun(Shadowsocks, id, tags, longer)
    ensures |run| < |longer| <= |run| + 2 && longer[..|run|] == run
    ensures longer[|run|] == call.(panel := longer[|run|].panel, reply := NotModified)
    ensures After(Shadowsocks, id, longer).answer == Some(NoChange)
    ensures After(Shadowsocks, id, longer).delivered != After(Shadowsocks, id, longer).seen
  {
    hide Apply, HonestRun, Orderly, Coherent;
    var w := After(Shadowsocks, id, run);
    ValidatorNamesCachedList(Shadowsocks, id, tags, run);
    DisorderStep(id, w, tags, call);
    var again := call.(panel := w.client.last.value, reply := NotModified);
    HonestSnoc(Shadowsocks, id, tags, run, again);
    longer := run + [again];
    if call.NodeCall? {
      HonestSnoc(Shadowsocks, id, tags, longer, UsersCall([], NetworkError));
      longer := longer + [UsersCall([], NetworkError)];
    }
  }

  /** Two node requests in a row, from the start: the first list is parked, confirmed, and never delivered. */
  lemma LostChangeRun(id: int, u: UserInfo)
    ensures var first, second := NodeCall([u], Success([u], "e"), true), NodeCall([u], NotModified, true);
      var run := [first, second, UsersCall([u], NetworkError)];
      var w := After(Shadowsocks, id, run);
      && HonestRun(Shadowsocks, id, map["e" := [u]], run)
      && w.answer == Some(NoChange) && w.delivered == None && w.seen == Some([u])
  {
    var tags := map["e" := [u]];
    var first, second := NodeCall([u], Success([u], "e"), true), NodeCall([u], NotModified, true);
    HonestSnoc(Shadowsocks, id, tags, [], first);
    HonestSnoc(Shadowsocks, id, tags, [first], second);
    HonestSnoc(Shadowsocks, id, tags, [first, second], UsersCall([u], NetworkError));
    assert [] + [first] == [first] && [first] + [second] == [first, second];
    assert [first, second] + [UsersCall([u], NetworkError)] == [first, second, UsersCall([u], NetworkError)];
  }

  /******* The controller's order *******/

  predicate InStep(kind: NodeType, w: World) {
    && (kind == Shadowsocks ==> (w.client.pending.Some? <==> w.nodeReady))
    && (w.client.pending.Some? ==> w.client.node.Some?)
  }

  lemma StepInStep(kind: NodeType, id: int, w: World, call: Call)
    requires InStep(kind, w) && ControllerOrder(w, call)
    ensures InStep(kind, Apply(kind, id, w, call)) && Orderly(kind, w, call)
  {
  }

  lemma {:induction false} ControllerIsOrderly(kind: NodeType, id: int, run: seq<Call>)
    requires ControllerRun(kind, id, run)
    ensures OrderlyRun(kind, id, run) && InStep(kind, After(kind, id, run))
  {
    hide Apply, Orderly, ControllerOrder, InStep;
    if run == [] {
      StartInStep(kind);
    } else {
      var before := run[..|run| - 1];
      forall n | 0 <= n < |before|
        ensures ControllerOrder(After(kind, id, before[..n]), before[n])
      {
        assert before[..n] == run[..n];
      }
      ControllerIsOrderly(kind, id, before);
      StepInStep(kind, id, After(kind, id, before), run[|run| - 1]);
      forall n | 0 <= n < |run|
        ensures Orderly(kind, After(kind, id, run[..n]), run[n])
      {
        if n < |before| {
          assert before[..n] == run[..n];
        }
      }
    }
  }

  /** So the controller is never told "no change" about a list it was not given. */
  lemma ControllerHearsEveryChange(kind: NodeType, id: int, tags: map<string, List>, run: seq<Call>)
    requires HonestRun(kind, id, tags, run) && ControllerRun(kind, id, run)
    requires After(kind, id, run).answer == Some(NoChange)
    ensures After(kind, id, run).delivered.Some? && After(kind, id, run).delivered == After(kind, id, run).seen
  {
    ControllerIsOrderly(kind, id, run);
    NoChangeIsTrue(kind, id, tags, run);
  }

  lemma StartInStep(kind: NodeType)
    ensures InStep(kind, START)
  {
  }

  /** Under the controller's order a Shadowsocks node is always the head of the latest non-empty list fetched. */
  predicate NodeFromLatest(id: int, w: World) {
    && (w.nonEmpty.None? ==> w.client.node.None?)
    && (w.nonEmpty.Some? ==>
      && w.nonEmpty.value != []
      && var head := w.nonEmpty.value[0];
         w.client.node == Some(NodeInfo(Shadowsocks, id, head.port, "tcp", head.cipher)))
    && (w.node.Some? ==> w.node == w.client.node)
  }

  lemma StepNode(id: int, w: World, call: Call, tags: map<string, List>)
    requires Coherent(Shadowsocks, w, tags) && Honest(tags, w.client.etag, call.panel, call.reply)
    requires NodeFromLatest(id, w) && InStep(Shadowsocks, w) && ControllerOrder(w, call)
    ensures NodeFromLatest(id, Apply(Shadowsocks, id, w, call))
  {
  }

  /**
   * A list the panel answers in full is delivered: at once to a user request, and after a node request to the user
   * request that follows, provided there is a user to take the node from or a node was known before.
   */
  lemma FullAnswerIsDelivered(kind: NodeType, id: int, w: World, list: List, etag: string, other: Call)
    requires kind != Unsupported && other.UsersCall?
    ensures kind != Shadowsocks || w.client.pending.None? ==>
      Apply(kind, id, w, UsersCall(list, Success(list, etag))).answer == Some(Users(list))
    ensures kind == Shadowsocks && (list != [] || w.client.node.Some?) ==>
      var w1 := Apply(kind, id, w, NodeCall(list, Success(list, etag), true));
      && w1.node.Some? && w1.nodeReady
      && Apply(kind, id, w1, other).answer == Some(Users(list)) && Apply(kind, id, w1, other).delivered == Some(list)
  {
  }

  lemma {:induction false} NodeInfoFromLatestList(id: int, tags: map<string, List>, run: seq<Call>)
    requires HonestRun(Shadowsocks, id, tags, run) && ControllerRun(Shadowsocks, id, run)
    ensures NodeFromLatest(id, After(Shadowsocks, id, run))
  {
    hide Apply, Honest, HonestRun, Orderly, ControllerOrder, InStep, Coherent;
    if run != [] {
      var before := run[..|run| - 1];
      forall n | 0 <= n < |before|
        ensures ControllerOrder(After(Shadowsocks, id, before[..n]), before[n])
      {
        assert before[..n] == run[..n];
      }
      HonestPrefix(Shadowsocks, id, tags, run);
      NodeInfoFromLatestList(id, tags, before);
      ControllerIsOrderly(Shadowsocks, id, before);
      ValidatorNamesCachedList(Shadowsocks, id, tags, before);
      StepNode(id, After(Shadowsocks, id, before), run[|run| - 1], tags);
    }
  }
}
