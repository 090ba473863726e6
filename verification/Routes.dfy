/** Deterministic route selection and event resolution of a channel account. */
module Routes {
  import opened Seqs
  import opened GatewayQueues
  import Text

  datatype GroupPolicy = GroupPolicy(
    requireMention: bool, sharedMemory: bool, retained: set<string>,
    tools: set<string>, schedules: set<string>, proactive: bool)

  datatype Rule = Rule(
    id: string, enabled: bool, priority: int,
    conversation: Option<string>, thread: Option<string>, sender: Option<string>,
    profile: string, session: Session, group: GroupPolicy)

  datatype RouteError = MissingRoute | AmbiguousRoute

  function Given(o: Option<string>): nat {
    if o.Some? then 1 else 0
  }

  function Specificity(r: Rule): nat {
    Given(r.conversation) + Given(r.thread) + Given(r.sender)
  }

  predicate Matches(r: Rule, m: Inbound) {
    && r.enabled
    && (r.conversation.None? || r.conversation.value == m.conversation)
    && (r.thread.None? || m.thread == r.thread)
    && (r.sender.None? || r.sender.value == m.sender)
  }

  /** The order routes are sorted in: higher priority, then more specific, then smaller identity. */
  predicate Precedes(a: Rule, b: Rule) {
    a.priority > b.priority
    || (a.priority == b.priority
        && (Specificity(a) > Specificity(b)
            || (Specificity(a) == Specificity(b) && Text.Before(a.id, b.id))))
  }

  predicate Conflict(a: Rule, b: Rule) {
    a.priority == b.priority && Specificity(a) == Specificity(b)
    && (a.profile != b.profile || a.session != b.session)
  }

  function Candidates(rules: seq<Rule>, m: Inbound): seq<Rule> {
    if rules == [] then []
    else (if Matches(rules[0], m) then [rules[0]] else []) + Candidates(rules[1..], m)
  }

  function Insert(r: Rule, list: seq<Rule>): seq<Rule> {
    if list == [] || !Precedes(list[0], r) then [r] + list else [list[0]] + Insert(r, list[1..])
  }

  function Sort(list: seq<Rule>): seq<Rule> {
    if list == [] then [] else Insert(list[0], Sort(list[1..]))
  }

  function SelectRoute(rules: seq<Rule>, m: Inbound): Result<Rule, RouteError> {
    var sorted := Sort(Candidates(rules, m));
    if sorted == [] then Err(MissingRoute)
    else if |sorted| > 1 && Conflict(sorted[0], sorted[1]) then Err(AmbiguousRoute)
    else Ok(sorted[0])
  }

  // ---------------------------------------------------------------- what the selection means

  ghost predicate UniqueIds(rules: seq<Rule>) {
    forall i, j :: 0 <= i < j < |rules| ==> rules[i].id != rules[j].id
  }

  ghost predicate Candidate(rules: seq<Rule>, m: Inbound, r: Rule) {
    r in rules && Matches(r, m)
  }

  /** `r` comes first among the matching enabled rules. */
  ghost predicate IsBest(rules: seq<Rule>, m: Inbound, r: Rule) {
    Candidate(rules, m, r) && forall x :: Candidate(rules, m, x) && x != r ==> Precedes(r, x)
  }

  /** `r` comes first among the matching enabled rules other than `best`. */
  ghost predicate IsRunnerUp(rules: seq<Rule>, m: Inbound, best: Rule, r: Rule) {
    Candidate(rules, m, r) && r != best
    && forall x :: Candidate(rules, m, x) && x != r && x != best ==> Precedes(r, x)
  }

  lemma PrecedesAsymmetric(a: Rule, b: Rule)
    ensures !(Precedes(a, b) && Precedes(b, a))
    ensures a.id != b.id ==> Precedes(a, b) || Precedes(b, a)
  {
    Text.BeforeTotal(a.id, b.id);
  }

  lemma PrecedesTransitive(a: Rule, b: Rule, c: Rule)
    requires Precedes(a, b) && Precedes(b, c)
    ensures Precedes(a, c)
  {
    if Text.Before(a.id, b.id) && Text.Before(b.id, c.id) {
      Text.BeforeTransitive(a.id, b.id, c.id);
    }
  }

  ghost predicate Ordered(list: seq<Rule>) {
    forall i, j :: 0 <= i < j < |list| ==> Precedes(list[i], list[j])
  }

  lemma {:induction false} InsertSorts(r: Rule, list: seq<Rule>)
    requires Ordered(list) && forall x :: x in list ==> x.id != r.id
    ensures Ordered(Insert(r, list))
    ensures forall x :: x in Insert(r, list) <==> x == r || x in list
  {
    if list == [] {
    } else if !Precedes(list[0], r) {
      PrecedesAsymmetric(r, list[0]);
      forall i | 0 < i < |list|
        ensures Precedes(r, list[i])
      {
        PrecedesTransitive(r, list[0], list[i]);
      }
    } else {
      InsertSorts(r, list[1..]);
      var rest := Insert(r, list[1..]);
      assert forall x :: x in list <==> x == list[0] || x in list[1..];
      forall i | 0 <= i < |rest|
        ensures Precedes(list[0], rest[i])
      {
        assert rest[i] in rest;
      }
    }
  }

  lemma {:induction false} CandidatesAre(rules: seq<Rule>, m: Inbound)
    ensures forall x :: x in Candidates(rules, m) <==> Candidate(rules, m, x)
    ensures UniqueIds(rules) ==> UniqueIds(Candidates(rules, m))
  {
    if rules != [] {
      CandidatesAre(rules[1..], m);
      assert forall x :: x in rules <==> x == rules[0] || x in rules[1..];
      var rest := Candidates(rules[1..], m);
      forall i | 0 <= i < |rest|
        ensures rest[i] in rules[1..]
      {
        assert rest[i] in rest;
      }
    }
  }

  lemma {:induction false} SortSorts(list: seq<Rule>)
    requires UniqueIds(list)
    ensures Ordered(Sort(list)) && forall x :: x in Sort(list) <==> x in list
  {
    if list != [] {
      SortSorts(list[1..]);
      assert forall x :: x in list <==> x == list[0] || x in list[1..];
      InsertSorts(list[0], Sort(list[1..]));
    }
  }

  /** A route is missing exactly when nothing matches; otherwise the unique best rule is chosen unless
      the runner-up ties with it on priority and specificity and leads elsewhere. */
  lemma SelectRouteMeaning(rules: seq<Rule>, m: Inbound)
    requires UniqueIds(rules)
    ensures SelectRoute(rules, m) == Err(MissingRoute) <==> forall x :: !Candidate(rules, m, x)
    ensures SelectRoute(rules, m).Ok? ==>
              var best := SelectRoute(rules, m).value;
              IsBest(rules, m, best)
              && forall second :: IsRunnerUp(rules, m, best, second) ==> !Conflict(best, second)
    ensures SelectRoute(rules, m) == Err(AmbiguousRoute) <==>
              exists best, second :: IsBest(rules, m, best) && IsRunnerUp(rules, m, best, second)
                                     && Conflict(best, second)
  {
    var found := Candidates(rules, m);
    CandidatesAre(rules, m);
    SortSorts(found);
    var sorted := Sort(found);
    assert forall x :: x in sorted <==> Candidate(rules, m, x);
    if sorted != [] {
      var best := sorted[0];
      assert best in sorted;
      assert IsBest(rules, m, best) by {
        forall x | x in sorted && x != best
          ensures Precedes(best, x)
        {
          var i :| 0 <= i < |sorted| && sorted[i] == x;
        }
      }
      BestIsUnique(rules, m, best);
      if |sorted| > 1 {
        SecondIsRunnerUp(rules, m, sorted);
        RunnerUpIsUnique(rules, m, best, sorted[1]);
      } else {
        assert forall x :: x in sorted ==> x == best;
      }
    }
  }

  lemma SecondIsRunnerUp(rules: seq<Rule>, m: Inbound, sorted: seq<Rule>)
    requires Ordered(sorted) && |sorted| > 1
    requires forall x :: x in sorted <==> Candidate(rules, m, x)
    ensures IsRunnerUp(rules, m, sorted[0], sorted[1])
  {
    assert sorted[1] in sorted;
    PrecedesAsymmetric(sorted[0], sorted[1]);
    assert Precedes(sorted[0], sorted[1]);
    forall x | x in sorted && x != sorted[1] && x != sorted[0]
      ensures Precedes(sorted[1], x)
    {
      var i :| 0 <= i < |sorted| && sorted[i] == x;
    }
  }

  lemma BestIsUnique(rules: seq<Rule>, m: Inbound, best: Rule)
    requires IsBest(rules, m, best)
    ensures forall other :: IsBest(rules, m, other) ==> other == best
  {
    forall other | IsBest(rules, m, other)
      ensures other == best
    {
      PrecedesAsymmetric(best, other);
    }
  }

  lemma RunnerUpIsUnique(rules: seq<Rule>, m: Inbound, best: Rule, second: Rule)
    requires IsRunnerUp(rules, m, best, second)
    ensures forall other :: IsRunnerUp(rules, m, best, other) ==> other == second
  {
    forall other | IsRunnerUp(rules, m, best, other)
      ensures other == second
    {
      PrecedesAsymmetric(second, other);
    }
  }

  /** The answer does not depend on the order the rules are listed in. */
  lemma OrderDoesNotMatter(rules: seq<Rule>, shuffled: seq<Rule>, m: Inbound)
    requires UniqueIds(rules) && UniqueIds(shuffled)
    requires forall x :: x in rules <==> x in shuffled
    ensures SelectRoute(rules, m) == SelectRoute(shuffled, m)
  {
    SelectRouteMeaning(rules, m);
    SelectRouteMeaning(shuffled, m);
    assert forall x :: Candidate(rules, m, x) <==> Candidate(shuffled, m, x);
    assert forall x :: IsBest(rules, m, x) <==> IsBest(shuffled, m, x);
    assert forall b, x :: IsRunnerUp(rules, m, b, x) <==> IsRunnerUp(shuffled, m, b, x);
    if SelectRoute(rules, m).Ok? {
      BestIsUnique(rules, m, SelectRoute(rules, m).value);
    }
  }

  /** The tie check looks at the runner-up only: a third rule tied with a chosen route may lead
      elsewhere. */
  lemma ThirdTieIsNotChecked(a: Rule, b: Rule, c: Rule, m: Inbound)
    requires Matches(a, m) && Matches(b, m) && Matches(c, m)
    requires Text.Before(a.id, b.id) && Text.Before(b.id, c.id)
    requires !Conflict(a, b) && Conflict(a, c)
    requires a.priority == b.priority == c.priority
    requires Specificity(a) == Specificity(b) == Specificity(c)
    ensures SelectRoute([a, b, c], m) == Ok(a)
  {
    hide Text.Before, Specificity;
    Text.BeforeTransitive(a.id, b.id, c.id);
    Text.BeforeTotal(a.id, b.id);
    Text.BeforeTotal(b.id, c.id);
    Text.BeforeTotal(a.id, c.id);
    var rules := [a, b, c];
    SelectRouteMeaning(rules, m);
    assert Candidate(rules, m, a) && Candidate(rules, m, b);
    assert IsBest(rules, m, a);
    assert IsRunnerUp(rules, m, a, b);
    BestIsUnique(rules, m, a);
    RunnerUpIsUnique(rules, m, a, b);
  }

  function Anywhere(id: string, session: Session): Rule {
    Rule(id, true, 0, None, None, None, "p", session, GroupPolicy(false, false, {}, {}, {}, false))
  }

  lemma AnywhereMatches(id: string, session: Session, m: Inbound)
    ensures var r := Anywhere(id, session);
            && Matches(r, m) && r.id == id && r.priority == 0 && Specificity(r) == 0
            && r.profile == "p" && r.session == session
  {
  }

  lemma Letters()
    ensures Text.Before("a", "b") && Text.Before("b", "c") && "s" != "t"
  {
    assert "s"[0] != "t"[0];
  }

  /** Concretely: three rules for any message, of which the third leads elsewhere. */
  lemma ThirdTieHappens(m: Inbound)
    ensures SelectRoute([Anywhere("a", "s"), Anywhere("b", "s"), Anywhere("c", "t")], m) == Ok(Anywhere("a", "s"))
    ensures Conflict(Anywhere("a", "s"), Anywhere("c", "t"))
  {
    hide SelectRoute, Text.Before, Matches, Specificity, Anywhere;
    Letters();
    AnywhereMatches("a", "s", m);
    AnywhereMatches("b", "s", m);
    AnywhereMatches("c", "t", m);
    ThirdTieIsNotChecked(Anywhere("a", "s"), Anywhere("b", "s"), Anywhere("c", "t"), m);
  }

  // ---------------------------------------------------------------- events

  /** Where and with which permissions a message was accepted. */
  datatype Context = Context(
    routeId: string, sharedMemory: bool, tools: bool, schedules: bool, proactive: bool)

  datatype Durable = Durable(context: Context, routed: Routed)

  datatype EventKind =
    | MessageCreated(message: Inbound, group: bool, mentions: bool)
    | Command(message: Inbound, group: bool)
    | CancellationRequested(cancellationId: string, at: int)
    | Unsupported

  datatype Event = Event(id: string, compatible: bool, valid: bool, kind: EventKind)

  datatype Config = Config(
    channel: string, accountId: string, enabled: bool, limits: Limits, routes: seq<Rule>)

  datatype GatewayError =
    | UnknownAccount | DuplicateAccount | AccountUnavailable | InvalidEvent | UnsupportedEvent
    | CrossAccount | NoRoute(route: RouteError) | MentionRequired | ParticipantDenied
    | QueueRefused(queue: QueueError) | NoDispatch | Persistence | Rejected

  function InboundOf(config: Config, event: Event): Option<Inbound> {
    match event.kind
    case MessageCreated(m, _, _) => Some(m.(channel := config.channel))
    case Command(m, _) => Some(m.(channel := config.channel))
    case CancellationRequested(id, at) =>
      Some(Inbound(config.channel, config.accountId, "control", None, config.accountId, event.id,
                   None, id, [], at, Cancel))
    case Unsupported => None
  }

  predicate FromGroup(event: Event) {
    match event.kind
    case MessageCreated(_, group, _) => group
    case Command(_, group) => group
    case _ => false
  }

  predicate Mentions(event: Event) {
    event.kind.MessageCreated? && event.kind.mentions
  }

  function ResolveEvent(config: Config, event: Event): Result<Durable, GatewayError> {
    if !event.compatible then Err(InvalidEvent)
    else if InboundOf(config, event).None? then Err(UnsupportedEvent)
    else
      var m := InboundOf(config, event).value;
      if m.account != config.accountId then Err(CrossAccount)
      else
        match SelectRoute(config.routes, m)
        case Err(e) => Err(NoRoute(e))
        case Ok(route) =>
          if FromGroup(event) && route.group.requireMention && !Mentions(event) then Err(MentionRequired)
          else if FromGroup(event) && route.group.retained != {} && m.sender !in route.group.retained then
            Err(ParticipantDenied)
          else Ok(Permitted(route, m, FromGroup(event)))
  }

  /** What a rule asks of a message: each of its conditions that is given. */
  ghost predicate Asks(condition: Option<string>, value: Option<string>) {
    condition.Some? ==> value == condition
  }

  ghost predicate Applies(r: Rule, m: Inbound) {
    r.enabled && Asks(r.conversation, Some(m.conversation)) && Asks(r.thread, m.thread) && Asks(r.sender, Some(m.sender))
  }

  /** No rule that applies has a higher priority, nor the same and more conditions, nor both the same and a smaller id. */
  lemma BestIsHighest(rules: seq<Rule>, m: Inbound, best: Rule)
    requires UniqueIds(rules)
    ensures IsBest(rules, m, best) <==>
            && best in rules && Applies(best, m)
            && forall x :: x in rules && Applies(x, m) && x != best ==>
                 && x.priority <= best.priority
                 && (x.priority == best.priority ==> Conditions(x) <= Conditions(best))
                 && (x.priority == best.priority && Conditions(x) == Conditions(best) ==> Text.Before(best.id, x.id))
  {
    hide Text.Before;
    assert forall x :: Candidate(rules, m, x) <==> x in rules && Applies(x, m);
    assert forall x :: Specificity(x) == Conditions(x);
  }

  function Conditions(r: Rule): nat {
    |(if r.conversation.Some? then ["conversation"] else []) + (if r.thread.Some? then ["thread"] else [])
     + (if r.sender.Some? then ["sender"] else [])|
  }

  /** The message is what the event says, for this account. */
  ghost predicate Says(config: Config, event: Event, m: Inbound) {
    match event.kind
    case MessageCreated(sent, _, _) => m == sent.(channel := config.channel) && sent.account == config.accountId
    case Command(sent, _) => m == sent.(channel := config.channel) && sent.account == config.accountId
    case CancellationRequested(id, at) =>
      && m.channel == config.channel && m.account == m.sender == config.accountId && m.conversation == "control"
      && m.intent == Cancel && m.text == id && m.messageId == event.id && m.occurredAt == at
      && m.thread == m.replyTarget == None && m.attachments == []
    case Unsupported => false
  }

  ghost predicate InGroup(event: Event) {
    (event.kind.MessageCreated? || event.kind.Command?) && event.kind.group
  }

  ghost predicate Unmentioned(route: Rule, event: Event) {
    route.group.requireMention && !(event.kind.MessageCreated? && event.kind.mentions)
  }

  /** In a group the rule may ask for a mention and for certain participants; a direct event is let in. */
  ghost predicate LetsIn(route: Rule, event: Event, sender: string) {
    InGroup(event) ==> !Unmentioned(route, event) && (route.group.retained == {} || sender in route.group.retained)
  }

  /** The other rule is as good a match and leads to another profile or session. */
  ghost predicate TiesElsewhere(route: Rule, second: Rule) {
    && second.priority == route.priority && Conditions(second) == Conditions(route)
    && (second.profile != route.profile || second.session != route.session)
  }

  lemma ConflictIs(a: Rule, b: Rule)
    ensures Conflict(a, b) <==> TiesElsewhere(a, b)
  {
  }

  lemma AllConflicts()
    ensures forall a, b :: Conflict(a, b) <==> TiesElsewhere(a, b)
  {
    forall a, b
      ensures Conflict(a, b) <==> TiesElsewhere(a, b)
    {
      ConflictIs(a, b);
    }
  }

  ghost predicate Unambiguous(rules: seq<Rule>, m: Inbound, route: Rule) {
    IsBest(rules, m, route) && forall second :: IsRunnerUp(rules, m, route, second) ==> !TiesElsewhere(route, second)
  }

  /** The sender's permissions under the rule: in a group those that the rule gives it, otherwise all, and shared memory
      only in a group. */
  ghost predicate Grants(route: Rule, event: Event, sender: string, c: Context) {
    && c.routeId == route.id
    && (c.sharedMemory <==> InGroup(event) && route.group.sharedMemory)
    && (c.tools <==> InGroup(event) ==> sender in route.group.tools)
    && (c.schedules <==> InGroup(event) ==> sender in route.group.schedules)
    && (c.proactive <==> InGroup(event) ==> route.group.proactive)
  }

  /** The event entitles `d` to its place and its permissions, by the best and unambiguous route. */
  ghost predicate Authorizes(config: Config, event: Event, route: Rule, d: Durable) {
    var m := d.routed.message;
    && event.compatible && Says(config, event, m) && Unambiguous(config.routes, m, route) && LetsIn(route, event, m.sender)
    && d.routed.profile == route.profile && d.routed.session == route.session && Grants(route, event, m.sender, d.context)
  }

  /** An event is accepted exactly as what it is entitled to; and when it is entitled to nothing, it is not. */
  lemma ResolvedByBest(config: Config, event: Event, d: Durable)
    requires UniqueIds(config.routes)
    ensures ResolveEvent(config, event) == Ok(d) <==> exists route :: Authorizes(config, event, route, d)
  {
    hide SelectRoute, Unambiguous;
    if InboundOf(config, event).Some? {
      var m := InboundOf(config, event).value;
      SelectedIsUnambiguous(config.routes, m);
      if ResolveEvent(config, event) == Ok(d) {
        assert Authorizes(config, event, SelectRoute(config.routes, m).value, d);
      }
    }
  }

  lemma UnambiguousIsSelected(rules: seq<Rule>, m: Inbound, route: Rule)
    requires UniqueIds(rules) && Unambiguous(rules, m, route)
    ensures SelectRoute(rules, m) == Ok(route)
  {
    hide SelectRoute, Precedes, Conflict, Matches, TiesElsewhere;
    SelectRouteMeaning(rules, m);
    BestIsUnique(rules, m, route);
    AllConflicts();
    assert Candidate(rules, m, route);
    match SelectRoute(rules, m)
    case Ok(chosen) => assert IsBest(rules, m, chosen);
    case Err(MissingRoute) =>
    case Err(AmbiguousRoute) =>
  }

  /** Why an event is refused. */
  lemma RefusedBecause(config: Config, event: Event)
    requires UniqueIds(config.routes)
    ensures ResolveEvent(config, event) == Err(InvalidEvent) <==> !event.compatible
    ensures ResolveEvent(config, event) == Err(UnsupportedEvent) <==> event.compatible && event.kind.Unsupported?
    ensures ResolveEvent(config, event) == Err(CrossAccount) <==>
            event.compatible && !event.kind.Unsupported? && forall m :: !Says(config, event, m)
    ensures ResolveEvent(config, event) == Err(NoRoute(MissingRoute)) <==>
            event.compatible && exists m :: Says(config, event, m) && forall x :: x in config.routes ==> !Applies(x, m)
    ensures ResolveEvent(config, event) == Err(NoRoute(AmbiguousRoute)) <==>
            event.compatible && exists m, best, second ::
              Says(config, event, m) && IsBest(config.routes, m, best) && IsRunnerUp(config.routes, m, best, second) && TiesElsewhere(best, second)
    ensures ResolveEvent(config, event) == Err(MentionRequired) <==>
            event.compatible && exists m, route ::
              Says(config, event, m) && Unambiguous(config.routes, m, route) && InGroup(event) && Unmentioned(route, event)
    ensures ResolveEvent(config, event) == Err(ParticipantDenied) <==>
            event.compatible && exists m, route ::
              Says(config, event, m) && Unambiguous(config.routes, m, route) && InGroup(event) && !Unmentioned(route, event)
              && route.group.retained != {} && m.sender !in route.group.retained
  {
    hide SelectRoute, IsBest, IsRunnerUp, Conflict, Candidate, Unambiguous, Applies, TiesElsewhere;
    AllConflicts();
    if InboundOf(config, event).Some? {
      var m := InboundOf(config, event).value;
      SelectRouteMeaning(config.routes, m);
      CandidatesApply(config.routes, m);
      assert forall x :: Says(config, event, x) ==> x == m;
      assert Says(config, event, m) <==> m.account == config.accountId;
      SelectedIsUnambiguous(config.routes, m);
    }
  }

  lemma SelectedIsUnambiguous(rules: seq<Rule>, m: Inbound)
    requires UniqueIds(rules)
    ensures forall x :: Unambiguous(rules, m, x) <==> SelectRoute(rules, m) == Ok(x)
  {
    hide SelectRoute, IsBest, IsRunnerUp, Conflict, TiesElsewhere;
    SelectRouteMeaning(rules, m);
    AllConflicts();
    forall x | Unambiguous(rules, m, x)
      ensures SelectRoute(rules, m) == Ok(x)
    {
      UnambiguousIsSelected(rules, m, x);
    }
  }

  lemma CandidatesApply(rules: seq<Rule>, m: Inbound)
    ensures forall x :: Candidate(rules, m, x) <==> x in rules && Applies(x, m)
  {
  }

  function Permitted(route: Rule, m: Inbound, group: bool): Durable {
    Durable(Context(route.id, group && route.group.sharedMemory,
                    !group || m.sender in route.group.tools,
                    !group || m.sender in route.group.schedules,
                    !group || route.group.proactive),
            Routed(route.profile, route.session, m))
  }
}
