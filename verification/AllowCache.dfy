/** The cache of access decisions in front of the slow access check, refreshed on every
    change of the access rules. */
module AllowCache {
  import opened Outcomes
  import opened Strings

  datatype Grant = Grant(subject: string, ns: string, name: string)

  /** The access rules in force: who may update which virtual machine instance. */
  type Policy = set<Grant>

  /** Calls outside a console stream share the key `NoStream`. */
  datatype StreamKey = NoStream | Stream(id: nat)

  /** `events` is missing when the cache does not stream events. */
  datatype Entries = Entries(subject: string, vms: map<string, bool>, events: Option<seq<bool>>)

  datatype Cache = Cache(streamEvents: bool, lists: map<StreamKey, Entries>)

  predicate AllowedSlow(policy: Policy, subject: string, resource: string) {
    var parts := Split(resource, '/');
    |parts| == 2 && Grant(subject, parts[0], parts[1]) in policy
  }

  function EntriesFor(c: Cache, key: StreamKey, subject: string): Entries {
    if key in c.lists then c.lists[key]
    else Entries(subject, map[], if c.streamEvents then Some([]) else None)
  }

  function Opened(c: Cache, key: StreamKey, subject: string): Cache {
    c.(lists := c.lists[key := EntriesFor(c, key, subject)])
  }

  /** The entries after a question about `resource`. */
  function Looked(l: Entries, subject: string, resource: string, policy: Policy): Entries {
    if resource in l.vms then l else l.(vms := l.vms[resource := AllowedSlow(policy, subject, resource)])
  }

  function Queried(c: Cache, key: StreamKey, subject: string, resource: string, policy: Policy): Cache {
    c.(lists := c.lists[key := Looked(EntriesFor(c, key, subject), subject, resource, policy)])
  }

  /** The present answers for a subject. */
  function Answers(policy: Policy, subject: string): string -> bool {
    resource => AllowedSlow(policy, subject, resource)
  }

  function RefreshedValues(l: Entries, answer: string -> bool): map<string, bool> {
    map v | v in l.vms :: answer(v)
  }

  /** `order` lists every entry whose value changed, once. */
  ghost predicate ListsChanges(l: Entries, answer: string -> bool, order: seq<string>) {
    && (forall v :: v in order <==> v in l.vms && l.vms[v] != answer(v))
    && (forall i, j :: 0 <= i < j < |order| ==> order[i] != order[j])
  }

  function Values(vms: map<string, bool>, order: seq<string>): seq<bool>
    requires forall v :: v in order ==> v in vms
  {
    if order == [] then [] else Values(vms, order[..|order| - 1]) + [vms[order[|order| - 1]]]
  }

  /** A tick sets every entry to the present answer for the list's subject, and sends one
      event with the new value for each entry that changed, in some order. */
  ghost predicate Refreshed(l: Entries, answer: string -> bool, after: Entries) {
    && after.subject == l.subject && after.vms == RefreshedValues(l, answer)
    && (if l.events.None? then after.events.None?
        else exists order :: ListsChanges(l, answer, order)
                             && after.events == Some(l.events.value + Values(after.vms, order)))
  }

  class AllowList {
    const subject: string
    var vms: map<string, bool>
    var events: Option<seq<bool>>

    function Value(): Entries
      reads this
    {
      Entries(subject, vms, events)
    }

    constructor (subject: string, events: Option<seq<bool>>)
      ensures Value() == Entries(subject, map[], events)
    {
      this.subject, this.vms, this.events := subject, map[], events;
    }

    method Lookup(asker: string, resource: string, policy: Policy) returns (allowed: bool)
      modifies this
      ensures Value() == Looked(old(Value()), asker, resource, policy)
      ensures resource in vms && allowed == vms[resource]
    {
      if resource in vms {
        return vms[resource];
      }
      allowed := AllowedSlow(policy, asker, resource);
      vms := vms[resource := allowed];
    }

    /** The work of one tick. */
    method Refresh(policy: Policy)
      modifies this
      ensures Refreshed(old(Value()), Answers(policy, subject), Value())
    {
      ghost var before := Value();
      ghost var answer := Answers(policy, subject);
      ghost var order: seq<string> := [];
      var rest := vms.Keys;
      while rest != {}
        invariant PartlyRefreshed(before, answer, rest, Value(), order)
        decreases rest
      {
        var v :| v in rest;
        var newValue := AllowedSlow(policy, subject, v);
        ghost var now := Value();
        PartlyStep(before, answer, rest, now, order, v);
        rest := rest - {v};
        if vms[v] != newValue {
          vms := vms[v := newValue];
          order := order + [v];
          if events.Some? {
            events := Some(events.value + [newValue]);
          }
        }
      }
      PartlyDone(before, answer, Value(), order);
    }
  }

  /** The entries outside `rest` have been refreshed. */
  ghost predicate ValuesDone(l: Entries, answer: string -> bool, rest: set<string>, vms: map<string, bool>) {
    && vms.Keys == l.vms.Keys && rest <= l.vms.Keys
    && (forall v :: v in rest ==> vms[v] == l.vms[v])
    && (forall v :: v in l.vms && v !in rest ==> vms[v] == answer(v))
  }

  /** `order` lists the entries outside `rest` that changed. */
  ghost predicate OrderDone(l: Entries, answer: string -> bool, rest: set<string>, order: seq<string>) {
    && (forall v :: v in order <==> v in l.vms && v !in rest && l.vms[v] != answer(v))
    && (forall i, j :: 0 <= i < j < |order| ==> order[i] != order[j])
  }

  ghost predicate PartlyRefreshed(l: Entries, answer: string -> bool, rest: set<string>, now: Entries,
                                  order: seq<string>)
  {
    && now.subject == l.subject
    && ValuesDone(l, answer, rest, now.vms) && OrderDone(l, answer, rest, order)
    && (now.events.Some? <==> l.events.Some?)
    && (now.events.Some? ==> now.events.value == l.events.value + Values(now.vms, order))
  }

  function OneRefreshed(now: Entries, answer: string -> bool, v: string): Entries
    requires v in now.vms
  {
    if now.vms[v] == answer(v) then now
    else now.(vms := now.vms[v := answer(v)],
              events := if now.events.None? then None else Some(now.events.value + [answer(v)]))
  }

  lemma PartlyStep(l: Entries, answer: string -> bool, rest: set<string>, now: Entries, order: seq<string>, v: string)
    requires PartlyRefreshed(l, answer, rest, now, order) && v in rest
    ensures PartlyRefreshed(l, answer, rest - {v}, OneRefreshed(now, answer, v),
                            if now.vms[v] == answer(v) then order else order + [v])
  {
    OrderStep(l, answer, rest, order, v);
    if now.vms[v] != answer(v) {
      ValuesGrow(now.vms, order, v, answer(v));
      if now.events.Some? {
        assert l.events.value + Values(now.vms[v := answer(v)], order + [v])
            == l.events.value + Values(now.vms, order) + [answer(v)];
      }
    }
  }

  lemma OrderStep(l: Entries, answer: string -> bool, rest: set<string>, order: seq<string>, v: string)
    requires OrderDone(l, answer, rest, order) && v in rest && v in l.vms
    ensures OrderDone(l, answer, rest - {v}, if l.vms[v] == answer(v) then order else order + [v])
  {
    assert v !in order;
  }

  lemma ValuesGrow(vms: map<string, bool>, order: seq<string>, v: string, value: bool)
    requires v !in order && forall w :: w in order ==> w in vms
    ensures Values(vms[v := value], order + [v]) == Values(vms, order) + [value]
  {
    ValuesFrame(vms, vms[v := value], order);
    assert (order + [v])[..|order|] == order;
  }

  lemma PartlyDone(l: Entries, answer: string -> bool, now: Entries, order: seq<string>)
    requires PartlyRefreshed(l, answer, {}, now, order)
    ensures Refreshed(l, answer, now)
  {
    assert now.vms == RefreshedValues(l, answer);
    assert ListsChanges(l, answer, order);
  }

  lemma {:induction false} ValuesFrame(before: map<string, bool>, after: map<string, bool>, order: seq<string>)
    requires forall v :: v in order ==> v in before && v in after && before[v] == after[v]
    ensures Values(before, order) == Values(after, order)
  {
    if order != [] {
      assert order[|order| - 1] in order;
      ValuesFrame(before, after, order[..|order| - 1]);
    }
  }

  class SubjectAllowCache {
    const streamEvents: bool
    var allowList: map<StreamKey, AllowList>

    /** Different keys have different lists. */
    ghost predicate Valid()
      reads this
    {
      forall j, k | j in allowList && k in allowList && j != k :: allowList[j] != allowList[k]
    }

    ghost function View(): Cache
      reads this, allowList.Values
    {
      Cache(streamEvents, map k | k in allowList :: allowList[k].Value())
    }

    constructor (streamEvents: bool)
      ensures Valid() && View() == Cache(streamEvents, map[])
    {
      this.streamEvents, this.allowList := streamEvents, map[];
    }

    method GetAllowList(key: StreamKey, subject: string) returns (list: AllowList)
      requires Valid()
      modifies this
      ensures Valid() && View() == Opened(old(View()), key, subject)
      ensures key in allowList && list == allowList[key]
      ensures if key in old(allowList) then list == old(allowList[key]) else fresh(list)
    {
      if key in allowList {
        return allowList[key];
      }
      list := new AllowList(subject, if streamEvents then Some([]) else None);
      Insert(key, list);
    }

    method Insert(key: StreamKey, list: AllowList)
      requires Valid() && key !in allowList && forall k | k in allowList :: allowList[k] != list
      modifies this
      ensures Valid() && allowList == old(allowList)[key := list]
      ensures View() == old(View()).(lists := old(View()).lists[key := list.Value()])
    {
      allowList := allowList[key := list];
    }

    method IsAllowedVM(key: StreamKey, subject: string, resource: string, policy: Policy) returns (allowed: bool)
      requires Valid()
      modifies this, allowList.Values
      ensures Valid() && View() == Queried(old(View()), key, subject, resource, policy)
      ensures allowed == View().lists[key].vms[resource]
    {
      var list := GetAllowList(key, subject);
      allowed := LookupIn(key, subject, resource, policy);
    }

    method LookupIn(key: StreamKey, subject: string, resource: string, policy: Policy) returns (allowed: bool)
      requires Valid() && key in allowList
      modifies allowList[key]
      ensures var before := old(View());
              View() == before.(lists := before.lists[key := Looked(before.lists[key], subject, resource, policy)])
      ensures allowed == View().lists[key].vms[resource]
    {
      ghost var before := View();
      var list := allowList[key];
      allowed := list.Lookup(subject, resource, policy);
      assert forall k | k in allowList && k != key :: allowList[k].Value() == before.lists[k];
      assert View().lists[key] == list.Value();
    }

    /** The watcher of a list wakes up. */
    method Tick(key: StreamKey, policy: Policy)
      requires Valid() && key in allowList
      modifies allowList.Values
      ensures Valid() && View().lists.Keys == old(View()).lists.Keys && View().streamEvents == old(View()).streamEvents
      ensures Refreshed(old(View()).lists[key], Answers(policy, View().lists[key].subject), View().lists[key])
      ensures forall k | k in allowList && k != key :: View().lists[k] == old(View()).lists[k]
    {
      allowList[key].Refresh(policy);
    }

    /** The watcher of a list ends. */
    method Close(key: StreamKey)
      requires Valid()
      modifies this
      ensures Valid() && View() == old(View()).(lists := old(View()).lists - {key})
    {
      allowList := allowList - {key};
    }
  }

  // ----- the slow answer and the events of a tick -----

  /** A subject is allowed exactly the resources `<namespace>/<name>`, with one slash, that it
      has a grant for. */
  lemma AllowedSlowSpec(policy: Policy, subject: string, resource: string)
    ensures AllowedSlow(policy, subject, resource)
       <==> exists g :: g in policy && g.subject == subject && '/' !in g.ns && '/' !in g.name
                        && resource == g.ns + "/" + g.name
  {
    var parts := Split(resource, '/');
    SplitFields(resource, '/');
    JoinSplit(resource, '/');
    if AllowedSlow(policy, subject, resource) {
      assert parts == [parts[0], parts[1]] && Join([parts[1]], '/') == parts[1] && parts[1..] == [parts[1]];
      assert parts[0] in parts && parts[1] in parts;
      var g := Grant(subject, parts[0], parts[1]);
      assert resource == g.ns + "/" + g.name;
    }
    if g :| g in policy && g.subject == subject && '/' !in g.ns && '/' !in g.name && resource == g.ns + "/" + g.name {
      SplitConcat(g.ns, g.name, '/');
      SplitPlain(g.ns, '/');
      SplitPlain(g.name, '/');
      assert parts == [g.ns, g.name];
    }
  }

  /** The resources whose cached answer is now `value` and was not before. */
  function TurnedTo(before: map<string, bool>, after: map<string, bool>, value: bool): set<string> {
    set v | v in before && v in after && before[v] != value && after[v] == value
  }

  function Count(events: seq<bool>, value: bool): nat {
    if events == [] then 0
    else Count(events[..|events| - 1], value) + if events[|events| - 1] == value then 1 else 0
  }

  lemma {:induction false} CountConcat(a: seq<bool>, b: seq<bool>, value: bool)
    ensures Count(a + b, value) == Count(a, value) + Count(b, value)
  {
    if b == [] {
      assert a + b == a;
    } else {
      assert (a + b)[..|a + b| - 1] == a + b[..|b| - 1];
      CountConcat(a, b[..|b| - 1], value);
    }
  }

  /** A tick of a list that streams appends events: one `true` for every resource that has
      become allowed, one `false` for every one that is no longer, and nothing else. */
  lemma OneEventPerChange(l: Entries, answer: string -> bool, after: Entries, value: bool)
    requires Refreshed(l, answer, after) && l.events.Some?
    ensures after.vms.Keys == l.vms.Keys && forall v | v in l.vms :: after.vms[v] == answer(v)
    ensures after.events.Some? && l.events.value <= after.events.value
    ensures Count(after.events.value, value) == Count(l.events.value, value) + |TurnedTo(l.vms, after.vms, value)|
  {
    var order :| ListsChanges(l, answer, order) && after.events == Some(l.events.value + Values(after.vms, order));
    CountConcat(l.events.value, Values(after.vms, order), value);
    CountValues(after.vms, order, value);
    PickedTurned(l, answer, order, after.vms, value);
  }

  function Picked(vms: map<string, bool>, order: seq<string>, value: bool): set<string> {
    set v | v in order && v in vms && vms[v] == value
  }

  lemma PickedTurned(l: Entries, answer: string -> bool, order: seq<string>, vms: map<string, bool>, value: bool)
    requires ListsChanges(l, answer, order) && vms == RefreshedValues(l, answer)
    ensures Picked(vms, order, value) == TurnedTo(l.vms, vms, value)
  {
    forall v ensures v in Picked(vms, order, value) <==> v in TurnedTo(l.vms, vms, value) {
    }
  }

  lemma PickedGrows(vms: map<string, bool>, order: seq<string>, v: string, value: bool)
    requires v !in order && v in vms
    ensures |Picked(vms, order + [v], value)| == |Picked(vms, order, value)| + if vms[v] == value then 1 else 0
  {
    assert Picked(vms, order + [v], value) == Picked(vms, order, value) + if vms[v] == value then {v} else {};
  }

  lemma {:induction false} CountValues(vms: map<string, bool>, order: seq<string>, value: bool)
    requires forall v :: v in order ==> v in vms
    requires forall i, j :: 0 <= i < j < |order| ==> order[i] != order[j]
    ensures Count(Values(vms, order), value) == |Picked(vms, order, value)|
  {
    if order != [] {
      var rest, last := order[..|order| - 1], order[|order| - 1];
      CountValues(vms, rest, value);
      PickedGrows(vms, rest, last, value);
      assert order == rest + [last];
    }
  }

  // ----- runs -----

  datatype System = System(policy: Policy, cache: Cache)

  datatype Event =
    | Open(key: StreamKey, subject: string)
    | Query(key: StreamKey, subject: string, resource: string)
    | Tick(key: StreamKey)
    | End(key: StreamKey)
    | PolicyChange

  ghost predicate Follows(s: System, e: Event, t: System) {
    match e
    case Open(key, subject) => t == s.(cache := Opened(s.cache, key, subject))
    case Query(key, subject, resource) => t == s.(cache := Queried(s.cache, key, subject, resource, s.policy))
    case Tick(key) =>
      && key in s.cache.lists && key in t.cache.lists
      && Refreshed(s.cache.lists[key], Answers(s.policy, s.cache.lists[key].subject), t.cache.lists[key])
      && t == s.(cache := s.cache.(lists := s.cache.lists[key := t.cache.lists[key]]))
    case End(key) => t == s.(cache := s.cache.(lists := s.cache.lists - {key}))
    case PolicyChange => t.cache == s.cache
  }

  ghost predicate IsRun(states: seq<System>, events: seq<Event>) {
    && |states| == |events| + 1 && states[0].cache.lists == map[]
    && forall i :: 0 <= i < |events| ==> Follows(states[i], events[i], states[i + 1])
  }

  predicate Cached(c: Cache, key: StreamKey, v: string) {
    key in c.lists && v in c.lists[key].vms
  }

  /** When and for whom the answer about `v` was last worked out: at the question that put it
      into the cache, or at the latest tick since. */
  datatype Check = Check(time: nat, subject: string)

  function LastCheck(states: seq<System>, events: seq<Event>, key: StreamKey, v: string, n: nat): Option<Check>
    requires n <= |events| && |states| == |events| + 1
  {
    if n == 0 then None else
    var c := states[n - 1].cache;
    var earlier := LastCheck(states, events, key, v, n - 1);
    match events[n - 1]
    case Query(k, subject, resource) =>
      if k == key && resource == v && !Cached(c, key, v) then Some(Check(n - 1, subject)) else earlier
    case Tick(k) => if k == key && Cached(c, key, v) then Some(Check(n - 1, c.lists[key].subject)) else earlier
    case End(k) => if k == key then None else earlier
    case _ => earlier
  }

  /** Each cached answer is the slow answer for the last check, in every state of every run. */
  lemma {:induction false} CacheAgrees(states: seq<System>, events: seq<Event>, key: StreamKey, v: string, n: nat)
    requires IsRun(states, events) && n < |states|
    ensures var last := LastCheck(states, events, key, v, n);
            && (last.Some? <==> Cached(states[n].cache, key, v))
            && (last.Some? ==>
                  && last.value.time < n
                  && states[n].cache.lists[key].vms[v]
                     == AllowedSlow(states[last.value.time].policy, last.value.subject, v))
  {
    if n > 0 {
      CacheAgrees(states, events, key, v, n - 1);
      assert Follows(states[n - 1], events[n - 1], states[n]);
    }
  }

  /** Who used `key` first since its watcher last ended. */
  function Opener(events: seq<Event>, key: StreamKey, n: nat): Option<string>
    requires n <= |events|
  {
    if n == 0 then None else
    var earlier := Opener(events, key, n - 1);
    match events[n - 1]
    case Open(k, who) => if k == key && earlier.None? then Some(who) else earlier
    case Query(k, who, _) => if k == key && earlier.None? then Some(who) else earlier
    case End(k) => if k == key then None else earlier
    case _ => earlier
  }

  /** In every state of every run the lists are those of the keys in use, each refreshed for the
      subject that used its key first. */
  lemma {:induction false} ListBelongsToOpener(states: seq<System>, events: seq<Event>, key: StreamKey, n: nat)
    requires IsRun(states, events) && n < |states|
    ensures var opener := Opener(events, key, n);
            && (key in states[n].cache.lists <==> opener.Some?)
            && (opener.Some? ==> states[n].cache.lists[key].subject == opener.value)
  {
    if n > 0 {
      ListBelongsToOpener(states, events, key, n - 1);
      assert Follows(states[n - 1], events[n - 1], states[n]);
    }
  }

  /** Everyone who uses `key` is `subject`. */
  predicate SoleUser(events: seq<Event>, key: StreamKey, subject: string) {
    forall i :: 0 <= i < |events| ==>
      match events[i]
      case Open(k, who) => k == key ==> who == subject
      case Query(k, who, _) => k == key ==> who == subject
      case _ => true
  }

  lemma {:induction false} SoleUserOwns(states: seq<System>, events: seq<Event>, key: StreamKey, subject: string,
                                        n: nat)
    requires IsRun(states, events) && SoleUser(events, key, subject) && n < |states|
    ensures key in states[n].cache.lists ==> states[n].cache.lists[key].subject == subject
  {
    if n > 0 {
      SoleUserOwns(states, events, key, subject, n - 1);
      assert Follows(states[n - 1], events[n - 1], states[n]);
    }
  }

  lemma {:induction false} SoleUserChecks(states: seq<System>, events: seq<Event>, key: StreamKey, subject: string,
                                          v: string, n: nat)
    requires IsRun(states, events) && SoleUser(events, key, subject) && n < |states|
    ensures var last := LastCheck(states, events, key, v, n);
            last.Some? ==> last.value.subject == subject
  {
    if n > 0 {
      SoleUserChecks(states, events, key, subject, v, n - 1);
      SoleUserOwns(states, events, key, subject, n - 1);
    }
  }

  /** For a key used by one subject, a cached answer is that subject's own slow answer, worked
      out when the question was first asked or at the latest tick since. */
  lemma SoleUserAgrees(states: seq<System>, events: seq<Event>, key: StreamKey, subject: string, v: string, n: nat)
    requires IsRun(states, events) && SoleUser(events, key, subject) && n < |states|
    requires Cached(states[n].cache, key, v)
    ensures var last := LastCheck(states, events, key, v, n);
            && last.Some? && last.value.subject == subject && last.value.time < n
            && states[n].cache.lists[key].vms[v] == AllowedSlow(states[last.value.time].policy, subject, v)
  {
    CacheAgrees(states, events, key, v, n);
    SoleUserChecks(states, events, key, subject, v, n);
  }

  /** The answer to one question of a run. */
  function Answer(states: seq<System>, events: seq<Event>, n: nat): Option<bool>
    requires n < |events| && |states| == |events| + 1
  {
    match events[n]
    case Query(key, _, resource) =>
      if Cached(states[n + 1].cache, key, resource) then Some(states[n + 1].cache.lists[key].vms[resource]) else None
    case _ => None
  }

  /** A question whose answer is not cached gets the asker's own slow answer. Any other
      question gets it if and only if the slow answer for the subject of the last check, under
      the policy of that check, is the same. */
  lemma AnswerIsOwn(states: seq<System>, events: seq<Event>, n: nat)
    requires IsRun(states, events) && n < |events| && events[n].Query?
    ensures var e := events[n];
            var own := AllowedSlow(states[n].policy, e.subject, e.resource);
            match LastCheck(states, events, e.key, e.resource, n)
            case None => Answer(states, events, n) == Some(own)
            case Some(check) =>
              && check.time < n
              && (Answer(states, events, n) == Some(own)
                  <==> AllowedSlow(states[check.time].policy, check.subject, e.resource) == own)
  {
    CacheAgrees(states, events, events[n].key, events[n].resource, n);
    assert Follows(states[n], events[n], states[n + 1]);
  }

  /** Two questions about one resource by different subjects, under the key that all calls
      outside a console stream share. */
  function TwoQuestions(policy: Policy, streamEvents: bool, first: string, second: string, resource: string)
    : (seq<System>, seq<Event>)
  {
    var c0 := Cache(streamEvents, map[]);
    var c1 := Queried(c0, NoStream, first, resource, policy);
    var c2 := Queried(c1, NoStream, second, resource, policy);
    ([System(policy, c0), System(policy, c1), System(policy, c2)],
     [Query(NoStream, first, resource), Query(NoStream, second, resource)])
  }

  /** The second asker gets the first one's answer. */
  lemma SharedKeyAnswers(policy: Policy, streamEvents: bool, first: string, second: string, resource: string)
    ensures var (states, events) := TwoQuestions(policy, streamEvents, first, second, resource);
            && IsRun(states, events)
            && Answer(states, events, 1) == Some(AllowedSlow(policy, first, resource))
  {
    var (states, events) := TwoQuestions(policy, streamEvents, first, second, resource);
    assert Follows(states[0], events[0], states[1]);
    assert Follows(states[1], events[1], states[2]);
  }

  /** So a subject without a grant is answered `true` after one that has it. */
  lemma SharedKeyExample()
    ensures var policy: Policy := {Grant("a", "n", "v")};
            var (states, events) := TwoQuestions(policy, false, "a", "b", "n/v");
            && IsRun(states, events)
            && Answer(states, events, 1) == Some(true) && !AllowedSlow(policy, "b", "n/v")
  {
    assert "n/v"[1..] == "/v" && "/v"[1..] == "v" && "v"[1..] == "";
    assert ['v'] + "" == "v" && ['n'] + "" == "n";
    assert Split("", '/') == [""] && Split("v", '/') == ["v"] && Split("/v", '/') == ["", "v"];
    SharedKeyAnswers({Grant("a", "n", "v")}, false, "a", "b", "n/v");
  }

  // ----- events of a console stream -----

  /** In every state of every run a list has an event queue if and only if the cache streams. */
  lemma {:induction false} QueuesIffStreaming(states: seq<System>, events: seq<Event>, n: nat)
    requires IsRun(states, events) && n < |states|
    ensures states[n].cache.streamEvents == states[0].cache.streamEvents
    ensures forall key | key in states[n].cache.lists ::
              states[n].cache.lists[key].events.Some? <==> states[0].cache.streamEvents
  {
    if n > 0 {
      QueuesIffStreaming(states, events, n - 1);
      assert Follows(states[n - 1], events[n - 1], states[n]);
    }
  }

  /** Successive events differ and the last one is the cached value. */
  ghost predicate Alternates(l: Entries, v: string) {
    && (forall w :: w in l.vms ==> w == v)
    && (l.events.Some? && l.events.value != [] ==>
          && v in l.vms && l.events.value[|l.events.value| - 1] == l.vms[v]
          && forall i :: 0 < i < |l.events.value| ==> l.events.value[i] != l.events.value[i - 1])
  }

  predicate OneResource(events: seq<Event>, key: StreamKey, v: string) {
    forall i :: 0 <= i < |events| && events[i].Query? && events[i].key == key ==> events[i].resource == v
  }

  lemma RefreshAlternates(l: Entries, answer: string -> bool, after: Entries, v: string)
    requires Alternates(l, v) && Refreshed(l, answer, after)
    ensures Alternates(after, v)
  {
    if l.events.Some? {
      var order :| ListsChanges(l, answer, order)
                   && after.events == Some(l.events.value + Values(after.vms, order));
      OneChange(l, answer, order, v);
      if order == [] {
        assert after.vms == l.vms;
        assert after.events.value == l.events.value;
      } else {
        assert Values(after.vms, [v]) == [after.vms[v]];
        OneMoreEvent(l, after, v);
      }
    }
  }

  lemma OneMoreEvent(l: Entries, after: Entries, v: string)
    requires Alternates(l, v) && l.events.Some? && v in l.vms
    requires v in after.vms && after.vms[v] != l.vms[v] && forall w :: w in after.vms ==> w == v
    requires after.events == Some(l.events.value + [after.vms[v]])
    ensures Alternates(after, v)
  {
    assert after.events.value[|after.events.value| - 1] == after.vms[v];
  }

  lemma OneChange(l: Entries, answer: string -> bool, order: seq<string>, v: string)
    requires ListsChanges(l, answer, order) && forall w :: w in l.vms ==> w == v
    ensures order == if v in l.vms && l.vms[v] != answer(v) then [v] else []
  {
    forall i | 0 <= i < |order| ensures order[i] == v {
      assert order[i] in order;
    }
    AtMostOne(order, v);
    if order == [] {
      assert v !in order;
    } else {
      assert order[0] in order;
    }
  }

  lemma AtMostOne(order: seq<string>, v: string)
    requires forall i :: 0 <= i < |order| ==> order[i] == v
    requires forall i, j :: 0 <= i < j < |order| ==> order[i] != order[j]
    ensures |order| <= 1
  {
    if order != [] {
      var first, last := order[0], order[|order| - 1];
    }
  }

  /** A stream about one resource reports alternating values, ending with the cached one. */
  lemma {:induction false} EventsAlternate(states: seq<System>, events: seq<Event>, key: StreamKey, v: string, n: nat)
    requires IsRun(states, events) && OneResource(events, key, v) && n < |states|
    ensures key in states[n].cache.lists ==> Alternates(states[n].cache.lists[key], v)
  {
    if n > 0 {
      EventsAlternate(states, events, key, v, n - 1);
      var s, t := states[n - 1], states[n];
      assert Follows(s, events[n - 1], t);
      if events[n - 1] == Tick(key) {
        RefreshAlternates(s.cache.lists[key], Answers(s.policy, s.cache.lists[key].subject), t.cache.lists[key], v);
      }
    }
  }
}
