/** The sync pass `checkFeed` of cmd/sqlite/main.go and of main.go, with
    `hasExistingGitlabIssue` and the sleep between poll cycles. The two copies
    differ only in the store they talk to: the SQLite-backed `RedisAdapter`
    here, a Redis server whose `SISMEMBER`/`SADD` have the same set meaning in
    main.go. Everything the pass asks the outside world (the feed, the
    dedup store's driver, GitLab's search and create, the clock) is a given
    answer in `Replies`. */
module Sync {
  import opened Base
  import opened SqliteStore
  import opened RedisAdapter

  /** A parsed feed entry; `updated` and `published` are the parsed dates when
      the feed gave them. */
  datatype Item = Item(
    guid: string,
    title: string,
    description: string,
    content: string,
    link: string,
    updated: Option<Time>,
    published: Option<Time>)

  /** One entry of the configuration's `Feeds`. */
  datatype Feed = Feed(
    id: string,
    feedURL: string,
    name: string,
    gitlabProjectID: int,
    labels: seq<string>,
    addedSince: Time,
    retroactive: bool)

  /** A project-scoped issue search: query, first page, page size. */
  datatype SearchRequest = SearchRequest(projectID: int, query: string, page: int, perPage: int)

  /** What the search returned: how many issues, and the error, which is only logged. */
  datatype SearchResponse = SearchResponse(issues: nat, err: Error)

  /** The options of one `CreateIssue` call. */
  datatype IssueRequest = IssueRequest(
    projectID: int,
    title: string,
    description: string,
    labels: seq<string>,
    createdAt: Time)

  /** The answers the outside world gives while the pass handles one item:
      the driver's outcome of its membership check, the search result,
      `time.Now()`, the outcome of the create call, and the driver's outcome
      of its `SAdd`. At most one `SAdd` is made per item. */
  datatype Replies = Replies(
    check: Error,
    search: SearchResponse,
    now: Time,
    create: Error,
    add: Error)

  /** `issuesCreatedCounter` and `issueCreationErrorCounter`. */
  class Metrics {
    var issuesCreated: nat
    var issueCreationErrors: nat

    constructor ()
      ensures issuesCreated == 0 && issueCreationErrors == 0
    {
      issuesCreated := 0;
      issueCreationErrors := 0;
    }
  }

  /** `hasExistingGitlabIssue`: one issue and several are both a match. The
      search error is only logged, so an error with no issues is no match. */
  function HasExistingIssue(r: SearchResponse): (existing: bool)
    ensures existing <==> r.issues >= 1
  {
    if r.issues == 1 then true
    else if r.issues > 1 then true
    else false
  }

  /** The search `hasExistingGitlabIssue` makes for an item: its GUID in the
      feed's project, page 1 of 10. */
  function SearchFor(feed: Feed, item: Item): (r: SearchRequest)
    ensures r.projectID == feed.gitlabProjectID && r.query == item.guid
    ensures r.page == 1 && r.perPage == 10
  {
    SearchRequest(feed.gitlabProjectID, item.guid, 1, 10)
  }

  /** The item's date: the updated date when present, else the published one. */
  function EffectiveTime(item: Item): (t: Option<Time>)
    ensures item.updated.Some? ==> t == item.updated
    ensures item.updated.None? ==> t == item.published
    ensures t.None? <==> item.updated.None? && item.published.None?
  {
    if item.updated.Some? then item.updated else item.published
  }

  /** The body of the issue: the description when there is one, else the
      content, followed by the link and the GUID. */
  function IssueDescription(item: Item): (d: string)
    ensures HasSuffix(d, "<br>" + item.link + "<br>" + item.guid)
    ensures HasSuffix(d, item.guid)
    ensures item.description != "" ==> HasPrefix(d, item.description)
    ensures item.description == "" ==> HasPrefix(d, item.content)
    ensures |d| == |if item.description != "" then item.description else item.content|
                   + 8 + |item.link| + |item.guid|
  {
    var body := if item.description != "" then item.description else item.content;
    var d := body + "<br>" + item.link + "<br>" + item.guid;
    assert d[|d| - |item.guid|..] == item.guid;
    assert d[|d| - |"<br>" + item.link + "<br>" + item.guid|..] == "<br>" + item.link + "<br>" + item.guid;
    assert d[..|body|] == body;
    d
  }

  /** The issue's creation date: the item's date for a retroactive feed,
      otherwise the current time. */
  function CreatedAt(retroactive: bool, itemTime: Time, now: Time): (t: Time)
    ensures retroactive ==> t == itemTime
    ensures !retroactive ==> t == now
  {
    if retroactive then itemTime else now
  }

  /** What happens to one item of a pass. */
  datatype Outcome =
    | CheckFailed                    // the membership check failed: dropped from the pass
    | AlreadySeen                    // the store holds it: nothing more is done
    | Undated                        // new but without a date: skipped
    | TooOld(recorded: bool)         // new, dated before `AddedSince`: recorded only
    | ExistsRemotely(recorded: bool) // new, and the search found an issue: recorded only
    | CreateFailed                   // the create call failed
    | Created(recorded: bool)        // an issue was created, then recorded or not

  /** The sets of items a pass is described by. */
  datatype Kind =
    | NewItem          // kept in `newArticle`
    | OldItem          // kept in `oldArticle`
    | Searched         // searched for on GitLab
    | Submitted        // given to `CreateIssue`
    | Recorded         // added to the store by this pass
    | CountedCreated   // moves `issuesCreatedCounter`
    | CountedError     // moves `issueCreationErrorCounter`
    | Unrecorded       // an issue was created but could not be recorded

  /** Whether an item with outcome `o` belongs to the items of kind `k`. */
  predicate Holds(k: Kind, o: Outcome)
  {
    match k
    case NewItem => !o.CheckFailed? && !o.AlreadySeen?
    case OldItem => o.AlreadySeen?
    case Searched => o.ExistsRemotely? || o.CreateFailed? || o.Created?
    case Submitted => o.CreateFailed? || o.Created?
    case Recorded => (o.TooOld? || o.ExistsRemotely? || o.Created?) && o.recorded
    case CountedCreated => o == Created(true)
    case CountedError => o.CreateFailed?
    case Unrecorded => o == Created(false)
  }

  /** One pass of `checkFeed` over fetched `items`, `replies[i]` answering
      for `items[i]`, against a store that held `seen` and was open or not. */
  datatype Pass = Pass(feed: Feed, items: seq<Item>, replies: seq<Replies>,
                       seen: set<Pair>, storeOpen: bool)
  {
    ghost predicate Valid() { |replies| == |items| }

    /** The key item `i` is stored under: the feed's ID and the item's GUID. */
    function Key(i: nat): Pair
      requires Valid() && i < |items|
    {
      (feed.id, items[i].guid)
    }

    /** The membership check of item `i` succeeds. */
    predicate CheckOk(i: nat)
      requires Valid() && i < |items|
    {
      storeOpen && replies[i].check.Nil?
    }

    /** The `SAdd` of item `i`, if it is made, succeeds. */
    predicate AddOk(i: nat)
      requires Valid() && i < |items|
    {
      AddError(storeOpen, replies[i].add).Nil?
    }

    /** The decision `checkFeed` takes for item `i`. The membership test is
        against `seen`, the store before the pass records anything. */
    function OutcomeOf(i: nat): (o: Outcome)
      requires Valid() && i < |items|
    {
      if !CheckOk(i) then CheckFailed
      else if Key(i) in seen then AlreadySeen
      else match EffectiveTime(items[i])
        case None => Undated
        case Some(t) =>
          if t < feed.addedSince then TooOld(AddOk(i))
          else if HasExistingIssue(replies[i].search) then ExistsRemotely(AddOk(i))
          else if !replies[i].create.Nil? then CreateFailed
          else Created(AddOk(i))
    }

    /** The options of the create call for item `i`. */
    function Request(i: nat): (r: IssueRequest)
      requires Valid() && i < |items|
    {
      var item := items[i];
      var now := replies[i].now;
      var itemTime := match EffectiveTime(item) case Some(t) => t case None => now;
      IssueRequest(feed.gitlabProjectID, item.title, IssueDescription(item), feed.labels,
                   CreatedAt(feed.retroactive, itemTime, now))
    }

    /** The elements of `s` are indices of items. */
    ghost predicate InRange(s: seq<nat>)
    {
      forall a :: 0 <= a < |s| ==> s[a] < |items|
    }

    /** The indices below `k` whose outcome satisfies `keep`, in order. */
    function Select(k: nat, keep: Kind): (r: seq<nat>)
      requires Valid() && k <= |items|
      ensures forall a :: 0 <= a < |r| ==> r[a] < k
      ensures InRange(r)
    {
      if k == 0 then []
      else Select(k - 1, keep) + (if Holds(keep, OutcomeOf(k - 1)) then [k - 1] else [])
    }

    /** The elements of the index sequence `s` whose outcome satisfies `keep`, in order. */
    function Filter(s: seq<nat>, keep: Kind): (r: seq<nat>)
      requires Valid() && InRange(s)
      ensures InRange(r)
    {
      if |s| == 0 then []
      else Filter(s[..|s| - 1], keep) + (if Holds(keep, OutcomeOf(s[|s| - 1])) then [s[|s| - 1]] else [])
    }

    function Requests(s: seq<nat>): seq<IssueRequest>
      requires Valid() && InRange(s)
    {
      if |s| == 0 then [] else Requests(s[..|s| - 1]) + [Request(s[|s| - 1])]
    }

    function Searches(s: seq<nat>): seq<SearchRequest>
      requires Valid() && InRange(s)
    {
      if |s| == 0 then [] else Searches(s[..|s| - 1]) + [SearchFor(feed, items[s[|s| - 1]])]
    }

    function Keys(s: seq<nat>): set<Pair>
      requires Valid() && InRange(s)
    {
      if |s| == 0 then {} else Keys(s[..|s| - 1]) + {Key(s[|s| - 1])}
    }
  }

  /** `Select` holds exactly the indices below `k` whose outcome satisfies `keep`. */
  lemma {:induction false} SelectMembers(p: Pass, k: nat, keep: Kind, i: int)
    requires p.Valid() && k <= |p.items|
    ensures i in p.Select(k, keep) <==> 0 <= i < k && Holds(keep, p.OutcomeOf(i))
  {
    if k > 0 {
      SelectMembers(p, k - 1, keep, i);
    }
  }

  /** Every index `Select` holds satisfies `keep`. */
  lemma SelectAt(p: Pass, k: nat, keep: Kind, a: nat)
    requires p.Valid() && k <= |p.items| && a < |p.Select(k, keep)|
    ensures Holds(keep, p.OutcomeOf(p.Select(k, keep)[a]))
  {
    SelectMembers(p, k, keep, p.Select(k, keep)[a]);
  }

  /** `Select` keeps the items' order and holds no index twice. */
  lemma {:induction false} SelectIncreasing(p: Pass, k: nat, keep: Kind)
    requires p.Valid() && k <= |p.items|
    ensures forall a, b :: 0 <= a < b < |p.Select(k, keep)| ==> p.Select(k, keep)[a] < p.Select(k, keep)[b]
    ensures forall a :: 0 <= a < |p.Select(k, keep)| ==> p.Select(k, keep)[a] < k
  {
    if k > 0 {
      SelectIncreasing(p, k - 1, keep);
    }
  }

  lemma FilterAppend(p: Pass, s: seq<nat>, x: nat, keep: Kind)
    requires p.Valid() && p.InRange(s) && x < |p.items|
    ensures p.Filter(s + [x], keep) == p.Filter(s, keep) + (if Holds(keep, p.OutcomeOf(x)) then [x] else [])
  {
    assert (s + [x])[..|s|] == s;
  }

  lemma RequestsAppend(p: Pass, s: seq<nat>, x: nat)
    requires p.Valid() && p.InRange(s) && x < |p.items|
    ensures p.Requests(s + [x]) == p.Requests(s) + [p.Request(x)]
    ensures p.Searches(s + [x]) == p.Searches(s) + [SearchFor(p.feed, p.items[x])]
    ensures p.Keys(s + [x]) == p.Keys(s) + {p.Key(x)}
  {
    assert (s + [x])[..|s|] == s;
  }

  /** The items of kind `keep` are among the items of kind `q`: every kind
      but `OldItem` describes new items only. */
  predicate Within(keep: Kind, q: Kind)
  {
    keep == q || (q == NewItem && keep != OldItem)
  }

  lemma WithinHolds(keep: Kind, q: Kind, o: Outcome)
    requires Within(keep, q) && Holds(keep, o)
    ensures Holds(q, o)
  {
  }

  /** Filtering the indices selected for `q` by a kind within it selects for that kind. */
  lemma {:induction false} FilterSelect(p: Pass, k: nat, q: Kind, keep: Kind)
    requires p.Valid() && k <= |p.items|
    requires Within(keep, q)
    ensures p.Filter(p.Select(k, q), keep) == p.Select(k, keep)
  {
    if k > 0 {
      FilterSelect(p, k - 1, q, keep);
      var o := p.OutcomeOf(k - 1);
      if Holds(q, o) {
        FilterAppend(p, p.Select(k - 1, q), k - 1, keep);
      } else {
        if Holds(keep, o) {
          WithinHolds(keep, q, o);
        }
        assert p.Select(k, q) == p.Select(k - 1, q);
        assert p.Select(k, keep) == p.Select(k - 1, keep);
      }
    }
  }

  /** How the membership check of item `i` extends `newArticle` and `oldArticle`. */
  lemma ClassifyStep(p: Pass, i: nat)
    requires p.Valid() && i < |p.items|
    ensures p.Select(i + 1, NewItem)
            == p.Select(i, NewItem) + (if p.CheckOk(i) && p.Key(i) !in p.seen then [i] else [])
    ensures p.Select(i + 1, OldItem)
            == p.Select(i, OldItem) + (if p.CheckOk(i) && p.Key(i) in p.seen then [i] else [])
  {
  }

  /** The outcome of a new item, by the branches of the second loop of `checkFeed`. */
  lemma NewOutcome(p: Pass, i: nat)
    requires p.Valid() && i < |p.items| && Holds(NewItem, p.OutcomeOf(i))
    ensures var item := p.items[i];
      && (EffectiveTime(item).None? ==> p.OutcomeOf(i) == Undated)
      && (EffectiveTime(item).Some? && EffectiveTime(item).value < p.feed.addedSince ==>
            p.OutcomeOf(i) == TooOld(p.AddOk(i)))
      && (EffectiveTime(item).Some? && EffectiveTime(item).value >= p.feed.addedSince ==>
            p.OutcomeOf(i) == if HasExistingIssue(p.replies[i].search) then ExistsRemotely(p.AddOk(i))
                             else if !p.replies[i].create.Nil? then CreateFailed
                             else Created(p.AddOk(i)))
    ensures EffectiveTime(p.items[i]).Some? ==>
              var item := p.items[i];
              var body := if item.description != "" then item.description else item.content;
              p.Request(i) == IssueRequest(p.feed.gitlabProjectID, item.title,
                                           body + "<br>" + item.link + "<br>" + item.guid, p.feed.labels,
                                           if p.feed.retroactive then EffectiveTime(item).value else p.replies[i].now)
  {
  }

  /** The first loop of `checkFeed`: every item is checked against the store
      before anything is recorded; an item whose check fails is dropped, the
      others go to `newArticle` or `oldArticle`, in feed order. */
  method Classify(feed: Feed, items: seq<Item>, replies: seq<Replies>, client: RedisAdapter)
    returns (newArticle: seq<nat>, oldArticle: seq<nat>)
    requires |replies| == |items|
    ensures var p := Pass(feed, items, replies, client.store.rows, client.store.open);
            newArticle == p.Select(|items|, NewItem) && oldArticle == p.Select(|items|, OldItem)
  {
    ghost var p := Pass(feed, items, replies, client.store.rows, client.store.open);
    newArticle, oldArticle := [], [];
    for i := 0 to |items|
      invariant newArticle == p.Select(i, NewItem)
      invariant oldArticle == p.Select(i, OldItem)
    {
      var cmd := client.SIsMember(feed.id, items[i].guid, replies[i].check);
      ClassifyStep(p, i);
      if !cmd.err.Nil? {
        continue;
      }
      if cmd.val {
        oldArticle := oldArticle + [i];
      } else {
        newArticle := newArticle + [i];
      }
    }
  }

  /** The sync pass. `fetchErr` is the outcome of fetching and parsing the
      feed; `replies[i]` answers for `items[i]`. Returns the indices the
      pass classified new and old, and the search and create calls it made,
      in order. */
  method CheckFeed(feed: Feed, items: seq<Item>, fetchErr: Error, replies: seq<Replies>,
                   client: RedisAdapter, metrics: Metrics)
    returns (newArticle: seq<nat>, oldArticle: seq<nat>,
             searches: seq<SearchRequest>, creates: seq<IssueRequest>)
    requires |replies| == |items|
    modifies client.store`rows, metrics
    ensures !fetchErr.Nil? ==>
              && newArticle == [] && oldArticle == [] && searches == [] && creates == []
              && client.store.rows == old(client.store.rows)
              && metrics.issuesCreated == old(metrics.issuesCreated)
              && metrics.issueCreationErrors == old(metrics.issueCreationErrors)
    ensures fetchErr.Nil? ==>
              var p := Pass(feed, items, replies, old(client.store.rows), client.store.open);
              && newArticle == p.Select(|items|, NewItem)
              && oldArticle == p.Select(|items|, OldItem)
              && searches == p.Searches(p.Select(|items|, Searched))
              && creates == p.Requests(p.Select(|items|, Submitted))
              && client.store.rows == old(client.store.rows) + p.Keys(p.Select(|items|, Recorded))
              && metrics.issuesCreated == old(metrics.issuesCreated) + |p.Select(|items|, CountedCreated)|
              && metrics.issueCreationErrors == old(metrics.issueCreationErrors) + |p.Select(|items|, CountedError)|
  {
    if !fetchErr.Nil? {
      return [], [], [], [];
    }
    ghost var p := Pass(feed, items, replies, client.store.rows, client.store.open);
    newArticle, oldArticle := Classify(feed, items, replies, client);
    searches, creates := HandleNewArticles(p, newArticle, feed, items, replies, client, metrics);
    FilterSelect(p, |items|, NewItem, Searched);
    FilterSelect(p, |items|, NewItem, Submitted);
    FilterSelect(p, |items|, NewItem, Recorded);
    FilterSelect(p, |items|, NewItem, CountedCreated);
    FilterSelect(p, |items|, NewItem, CountedError);
  }

  /** The second loop of `checkFeed`, over the items classified new: what it
      does for each is what `HandleNewItem` does, in order. */
  method HandleNewArticles(ghost p: Pass, newArticle: seq<nat>, feed: Feed, items: seq<Item>,
                           replies: seq<Replies>, client: RedisAdapter, metrics: Metrics)
    returns (searches: seq<SearchRequest>, creates: seq<IssueRequest>)
    requires p.Valid() && p.feed == feed && p.items == items && p.replies == replies
    requires newArticle == p.Select(|items|, NewItem)
    requires client.store.open == p.storeOpen && client.store.rows == p.seen
    modifies client.store`rows, metrics
    ensures client.store.rows == p.seen + p.Keys(p.Filter(newArticle, Recorded))
    ensures searches == p.Searches(p.Filter(newArticle, Searched))
    ensures creates == p.Requests(p.Filter(newArticle, Submitted))
    ensures metrics.issuesCreated == old(metrics.issuesCreated) + |p.Filter(newArticle, CountedCreated)|
    ensures metrics.issueCreationErrors == old(metrics.issueCreationErrors) + |p.Filter(newArticle, CountedError)|
  {
    searches, creates := [], [];
    ghost var created0, errors0 := metrics.issuesCreated, metrics.issueCreationErrors;
    for j := 0 to |newArticle|
      invariant client.store.rows == p.seen + p.Keys(p.Filter(newArticle[..j], Recorded))
      invariant searches == p.Searches(p.Filter(newArticle[..j], Searched))
      invariant creates == p.Requests(p.Filter(newArticle[..j], Submitted))
      invariant metrics.issuesCreated == created0 + |p.Filter(newArticle[..j], CountedCreated)|
      invariant metrics.issueCreationErrors == errors0 + |p.Filter(newArticle[..j], CountedError)|
    {
      var i := newArticle[j];
      LoopStep(p, newArticle, j);
      var searched, created := HandleNewItem(p, i, feed, items[i], replies[i], client, metrics);
      searches, creates := searches + searched, creates + created;
    }
    assert newArticle[..|newArticle|] == newArticle;
  }

  /** The body of the second loop of `checkFeed`, for the new item `i` of the
      pass `p`: what it searches, creates, records and counts follows from
      the item's outcome. A `continue` of the loop is a `return` here. */
  method HandleNewItem(ghost p: Pass, i: nat, feed: Feed, item: Item, r: Replies,
                       client: RedisAdapter, metrics: Metrics)
    returns (searched: seq<SearchRequest>, created: seq<IssueRequest>)
    requires p.Valid() && i < |p.items| && Holds(NewItem, p.OutcomeOf(i))
    requires p.feed == feed && p.items[i] == item && p.replies[i] == r
    requires client.store.open == p.storeOpen
    modifies client.store`rows, metrics
    ensures searched == if Holds(Searched, p.OutcomeOf(i)) then [SearchFor(feed, item)] else []
    ensures created == if Holds(Submitted, p.OutcomeOf(i)) then [p.Request(i)] else []
    ensures client.store.rows == old(client.store.rows) + (if Holds(Recorded, p.OutcomeOf(i)) then {p.Key(i)} else {})
    ensures metrics.issuesCreated == old(metrics.issuesCreated) + (if Holds(CountedCreated, p.OutcomeOf(i)) then 1 else 0)
    ensures metrics.issueCreationErrors == old(metrics.issueCreationErrors) + (if Holds(CountedError, p.OutcomeOf(i)) then 1 else 0)
  {
    NewOutcome(p, i);
    searched, created := [], [];

    // prefer the updated date to the published one
    var itemTime: Option<Time>;
    if item.updated.Some? {
      itemTime := item.updated;
    } else {
      itemTime := item.published;
    }
    assert itemTime == EffectiveTime(item);
    if itemTime.None? {
      return;
    }
    if itemTime.value < feed.addedSince {
      var cmd := client.SAdd(feed.id, [item.guid], [r.add]);
      SAddOne(feed.id, item.guid, client.store.open, r.add);
      return;
    }
    searched := [SearchFor(feed, item)];
    if HasExistingIssue(r.search) {
      var cmd := client.SAdd(feed.id, [item.guid], [r.add]);
      SAddOne(feed.id, item.guid, client.store.open, r.add);
      return;
    }
    var body := if item.description != "" then item.description else item.content;
    var now := r.now;
    var issueTime := now;
    if feed.retroactive {
      issueTime := itemTime.value;
    }
    created := [IssueRequest(feed.gitlabProjectID, item.title,
                             body + "<br>" + item.link + "<br>" + item.guid,
                             feed.labels, issueTime)];
    if !r.create.Nil? {
      metrics.issueCreationErrors := metrics.issueCreationErrors + 1;
      return;
    }
    var cmd := client.SAdd(feed.id, [item.guid], [r.add]);
    SAddOne(feed.id, item.guid, client.store.open, r.add);
    if !cmd.err.Nil? {
      return;
    }
    metrics.issuesCreated := metrics.issuesCreated + 1;
  }

  /** One turn of the second loop of `checkFeed`: the item handled is new,
      and handling it extends the store's rows, the calls and the counters
      as `Advance` says. */
  lemma LoopStep(p: Pass, s: seq<nat>, j: nat)
    requires p.Valid() && j < |s| && s == p.Select(|p.items|, NewItem)
    ensures Holds(NewItem, p.OutcomeOf(s[j]))
    ensures var o := p.OutcomeOf(s[j]);
      && p.seen + p.Keys(p.Filter(s[..j + 1], Recorded))
           == (p.seen + p.Keys(p.Filter(s[..j], Recorded))) + (if Holds(Recorded, o) then {p.Key(s[j])} else {})
      && p.Searches(p.Filter(s[..j + 1], Searched))
           == p.Searches(p.Filter(s[..j], Searched)) + (if Holds(Searched, o) then [SearchFor(p.feed, p.items[s[j]])] else [])
      && p.Requests(p.Filter(s[..j + 1], Submitted))
           == p.Requests(p.Filter(s[..j], Submitted)) + (if Holds(Submitted, o) then [p.Request(s[j])] else [])
      && |p.Filter(s[..j + 1], CountedCreated)| == |p.Filter(s[..j], CountedCreated)| + (if Holds(CountedCreated, o) then 1 else 0)
      && |p.Filter(s[..j + 1], CountedError)| == |p.Filter(s[..j], CountedError)| + (if Holds(CountedError, o) then 1 else 0)
  {
    SelectAt(p, |p.items|, NewItem, j);
    Advance(p, s, j);
    UnionAssociative(p.seen, p.Keys(p.Filter(s[..j], Recorded)),
                     if Holds(Recorded, p.OutcomeOf(s[j])) then {p.Key(s[j])} else {});
  }

  /** What handling `s[j]` after `s[..j]` adds to what the pass did. */
  lemma Advance(p: Pass, s: seq<nat>, j: nat)
    requires p.Valid() && p.InRange(s) && j < |s|
    ensures var o := p.OutcomeOf(s[j]);
      && p.Keys(p.Filter(s[..j + 1], Recorded))
           == p.Keys(p.Filter(s[..j], Recorded)) + (if Holds(Recorded, o) then {p.Key(s[j])} else {})
      && p.Searches(p.Filter(s[..j + 1], Searched))
           == p.Searches(p.Filter(s[..j], Searched)) + (if Holds(Searched, o) then [SearchFor(p.feed, p.items[s[j]])] else [])
      && p.Requests(p.Filter(s[..j + 1], Submitted))
           == p.Requests(p.Filter(s[..j], Submitted)) + (if Holds(Submitted, o) then [p.Request(s[j])] else [])
      && |p.Filter(s[..j + 1], CountedCreated)| == |p.Filter(s[..j], CountedCreated)| + (if Holds(CountedCreated, o) then 1 else 0)
      && |p.Filter(s[..j + 1], CountedError)| == |p.Filter(s[..j], CountedError)| + (if Holds(CountedError, o) then 1 else 0)
  {
    assert s[..j + 1] == s[..j] + [s[j]];
    StepKeys(p, s[..j], s[j]);
    StepSearches(p, s[..j], s[j]);
    StepRequests(p, s[..j], s[j]);
    StepCounters(p, s[..j], s[j]);
  }

  lemma UnionAssociative(a: set<Pair>, b: set<Pair>, c: set<Pair>)
    ensures a + b + c == a + (b + c)
  {
  }

  /** How one more handled item extends the keys the pass recorded. */
  lemma StepKeys(p: Pass, done: seq<nat>, i: nat)
    requires p.Valid() && p.InRange(done) && i < |p.items|
    ensures p.Keys(p.Filter(done + [i], Recorded))
            == p.Keys(p.Filter(done, Recorded)) + (if Holds(Recorded, p.OutcomeOf(i)) then {p.Key(i)} else {})
  {
    FilterAppend(p, done, i, Recorded);
    var r := p.Filter(done, Recorded);
    if Holds(Recorded, p.OutcomeOf(i)) {
      RequestsAppend(p, r, i);
    } else {
      assert p.Filter(done + [i], Recorded) == r;
    }
  }

  /** How one more handled item extends the searches the pass made. */
  lemma StepSearches(p: Pass, done: seq<nat>, i: nat)
    requires p.Valid() && p.InRange(done) && i < |p.items|
    ensures p.Searches(p.Filter(done + [i], Searched))
            == p.Searches(p.Filter(done, Searched))
               + (if Holds(Searched, p.OutcomeOf(i)) then [SearchFor(p.feed, p.items[i])] else [])
  {
    FilterAppend(p, done, i, Searched);
    var f := p.Filter(done, Searched);
    if Holds(Searched, p.OutcomeOf(i)) {
      RequestsAppend(p, f, i);
    } else {
      assert p.Filter(done + [i], Searched) == f;
    }
  }

  /** How one more handled item extends the create calls the pass made. */
  lemma StepRequests(p: Pass, done: seq<nat>, i: nat)
    requires p.Valid() && p.InRange(done) && i < |p.items|
    ensures p.Requests(p.Filter(done + [i], Submitted))
            == p.Requests(p.Filter(done, Submitted)) + (if Holds(Submitted, p.OutcomeOf(i)) then [p.Request(i)] else [])
  {
    FilterAppend(p, done, i, Submitted);
    var c := p.Filter(done, Submitted);
    if Holds(Submitted, p.OutcomeOf(i)) {
      RequestsAppend(p, c, i);
    } else {
      assert p.Filter(done + [i], Submitted) == c;
    }
  }

  /** How one more handled item moves the counters. */
  lemma StepCounters(p: Pass, done: seq<nat>, i: nat)
    requires p.Valid() && p.InRange(done) && i < |p.items|
    ensures |p.Filter(done + [i], CountedCreated)| == |p.Filter(done, CountedCreated)| + (if Holds(CountedCreated, p.OutcomeOf(i)) then 1 else 0)
    ensures |p.Filter(done + [i], CountedError)| == |p.Filter(done, CountedError)| + (if Holds(CountedError, p.OutcomeOf(i)) then 1 else 0)
  {
    FilterAppend(p, done, i, CountedCreated);
    FilterAppend(p, done, i, CountedError);
  }

  /** Every item whose check succeeds is classified exactly once: new when
      the store did not hold it, old when it did. A failed check drops it. */
  lemma Classification(p: Pass, i: nat)
    requires p.Valid() && i < |p.items|
    ensures i in p.Select(|p.items|, NewItem) <==> p.CheckOk(i) && p.Key(i) !in p.seen
    ensures i in p.Select(|p.items|, OldItem) <==> p.CheckOk(i) && p.Key(i) in p.seen
    ensures !(i in p.Select(|p.items|, NewItem) && i in p.Select(|p.items|, OldItem))
  {
    SelectMembers(p, |p.items|, NewItem, i);
    SelectMembers(p, |p.items|, OldItem, i);
  }

  /** An item the store already held is never searched, created or recorded. */
  lemma AlreadySeenUntouched(p: Pass, i: nat)
    requires p.Valid() && i < |p.items|
    requires p.CheckOk(i) && p.Key(i) in p.seen
    ensures i !in p.Select(|p.items|, Searched)
    ensures i !in p.Select(|p.items|, Submitted)
    ensures i !in p.Select(|p.items|, Recorded)
  {
    SelectMembers(p, |p.items|, Searched, i);
    SelectMembers(p, |p.items|, Submitted, i);
    SelectMembers(p, |p.items|, Recorded, i);
  }

  /** A new item with neither date is neither recorded, searched nor created. */
  lemma UndatedSkipped(p: Pass, i: nat)
    requires p.Valid() && i < |p.items|
    requires i in p.Select(|p.items|, NewItem)
    requires p.items[i].updated.None? && p.items[i].published.None?
    ensures i !in p.Select(|p.items|, Searched)
    ensures i !in p.Select(|p.items|, Submitted)
    ensures i !in p.Select(|p.items|, Recorded)
  {
    SelectMembers(p, |p.items|, NewItem, i);
    SelectMembers(p, |p.items|, Searched, i);
    SelectMembers(p, |p.items|, Submitted, i);
    SelectMembers(p, |p.items|, Recorded, i);
  }

  /** A new item dated before `AddedSince` is recorded exactly when its `SAdd`
      succeeds, and is neither searched nor created, even when the add fails. */
  lemma TooOldRecordedOnly(p: Pass, i: nat, t: Time)
    requires p.Valid() && i < |p.items|
    requires i in p.Select(|p.items|, NewItem)
    requires EffectiveTime(p.items[i]) == Some(t) && t < p.feed.addedSince
    ensures i in p.Select(|p.items|, Recorded) <==> p.AddOk(i)
    ensures i !in p.Select(|p.items|, Searched)
    ensures i !in p.Select(|p.items|, Submitted)
  {
    SelectMembers(p, |p.items|, NewItem, i);
    SelectMembers(p, |p.items|, Recorded, i);
    SelectMembers(p, |p.items|, Searched, i);
    SelectMembers(p, |p.items|, Submitted, i);
  }

  /** What GitLab and the clock answer does not matter to an item the store
      held, an undated one, or one dated before `AddedSince`. */
  lemma RemoteRepliesIrrelevant(p: Pass, i: nat, r: Replies)
    requires p.Valid() && i < |p.items|
    requires r.check == p.replies[i].check && r.add == p.replies[i].add
    requires p.OutcomeOf(i).CheckFailed? || p.OutcomeOf(i).AlreadySeen?
             || p.OutcomeOf(i).Undated? || p.OutcomeOf(i).TooOld?
    ensures p.(replies := p.replies[i := r]).OutcomeOf(i) == p.OutcomeOf(i)
  {
    var q := p.(replies := p.replies[i := r]);
    assert q.CheckOk(i) == p.CheckOk(i) && q.AddOk(i) == p.AddOk(i);
  }

  /** A search hit marks a new, recent enough item as seen: it is recorded
      exactly when its `SAdd` succeeds, and no issue is created. */
  lemma RemoteMatchMarksSeen(p: Pass, i: nat, t: Time)
    requires p.Valid() && i < |p.items|
    requires i in p.Select(|p.items|, NewItem)
    requires EffectiveTime(p.items[i]) == Some(t) && t >= p.feed.addedSince
    requires p.replies[i].search.issues >= 1
    ensures i in p.Select(|p.items|, Searched)
    ensures i in p.Select(|p.items|, Recorded) <==> p.AddOk(i)
    ensures i !in p.Select(|p.items|, Submitted)
  {
    SelectMembers(p, |p.items|, NewItem, i);
    SelectMembers(p, |p.items|, Searched, i);
    SelectMembers(p, |p.items|, Recorded, i);
    SelectMembers(p, |p.items|, Submitted, i);
  }

  /** A search that fails with no issues counts as no match: the create call is made. */
  lemma SearchErrorCreates(p: Pass, i: nat, t: Time)
    requires p.Valid() && i < |p.items|
    requires i in p.Select(|p.items|, NewItem)
    requires EffectiveTime(p.items[i]) == Some(t) && t >= p.feed.addedSince
    requires p.replies[i].search.issues == 0
    ensures i in p.Select(|p.items|, Submitted)
  {
    SelectMembers(p, |p.items|, NewItem, i);
    SelectMembers(p, |p.items|, Submitted, i);
  }

  /** A failed create moves the error counter and records nothing; a
      successful one moves the created counter only when its `SAdd` succeeds. */
  lemma CreateOutcomes(p: Pass, i: nat)
    requires p.Valid() && i < |p.items|
    requires i in p.Select(|p.items|, Submitted)
    ensures !p.replies[i].create.Nil? ==>
              i in p.Select(|p.items|, CountedError) && i !in p.Select(|p.items|, Recorded)
              && i !in p.Select(|p.items|, CountedCreated)
    ensures p.replies[i].create.Nil? ==>
              i !in p.Select(|p.items|, CountedError)
              && (i in p.Select(|p.items|, Recorded) <==> p.AddOk(i))
              && (i in p.Select(|p.items|, CountedCreated) <==> p.AddOk(i))
  {
    SelectMembers(p, |p.items|, Submitted, i);
    SelectMembers(p, |p.items|, CountedError, i);
    SelectMembers(p, |p.items|, Recorded, i);
    SelectMembers(p, |p.items|, CountedCreated, i);
  }

  /** Every create call is counted once: as an error, as a created issue,
      or as an issue that was created but not recorded. */
  lemma {:induction false} CountersBalance(p: Pass, k: nat)
    requires p.Valid() && k <= |p.items|
    ensures |p.Select(k, CountedCreated)| + |p.Select(k, CountedError)| + |p.Select(k, Unrecorded)|
            == |p.Select(k, Submitted)|
  {
    if k > 0 {
      CountersBalance(p, k - 1);
    }
  }

  /** `Requests` lists one create call per index, with the index's options. */
  lemma {:induction false} RequestsOnePerIndex(p: Pass, s: seq<nat>)
    requires p.Valid() && p.InRange(s)
    ensures |p.Requests(s)| == |s|
    ensures forall a :: 0 <= a < |s| ==> p.Requests(s)[a] == p.Request(s[a])
  {
    if |s| > 0 {
      RequestsOnePerIndex(p, s[..|s| - 1]);
    }
  }

  /** The create call for an item carries the feed's project and labels, the
      item's title, a body ending in its link and GUID, and its date when the
      feed is retroactive, the current time otherwise. */
  lemma RequestShape(p: Pass, i: nat, t: Time)
    requires p.Valid() && i < |p.items|
    requires EffectiveTime(p.items[i]) == Some(t)
    ensures p.Request(i).projectID == p.feed.gitlabProjectID && p.Request(i).labels == p.feed.labels
    ensures p.Request(i).title == p.items[i].title
    ensures HasSuffix(p.Request(i).description, "<br>" + p.items[i].link + "<br>" + p.items[i].guid)
    ensures p.Request(i).createdAt == if p.feed.retroactive then t else p.replies[i].now
  {
  }

  /** Everything a pass records is reported old by the next pass over a
      store that kept it: a recorded item is never created twice. */
  lemma RecordedIsOldNextPass(p: Pass, q: Pass, i: nat)
    requires p.Valid() && q.Valid() && q.feed == p.feed && q.items == p.items
    requires p.seen + p.Keys(p.Select(|p.items|, Recorded)) <= q.seen
    requires i in p.Select(|p.items|, Recorded) && q.CheckOk(i)
    ensures q.OutcomeOf(i) == AlreadySeen
    ensures i !in q.Select(|q.items|, Submitted)
  {
    SelectMembers(p, |p.items|, Recorded, i);
    InKeys(p, p.Select(|p.items|, Recorded), i);
    SelectMembers(q, |q.items|, Submitted, i);
  }

  /** The key of every index of `s` is among `Keys(s)`. */
  lemma {:induction false} InKeys(p: Pass, s: seq<nat>, i: nat)
    requires p.Valid() && p.InRange(s) && i in s
    ensures i < |p.items| && p.Key(i) in p.Keys(s)
  {
    var n := |s| - 1;
    if s[n] != i {
      assert i in s[..n];
      InKeys(p, s[..n], i);
    }
  }

  /** Both copies of an item reach the create call when the store holds neither. */
  lemma BothSubmitted(p: Pass, t: Time)
    requires p.Valid() && |p.items| == 2 && p.items[0] == p.items[1] && p.replies[0] == p.replies[1]
    requires p.seen == {} && p.storeOpen
    requires p.replies[0] == Replies(Nil, SearchResponse(0, Nil), t, Nil, Nil)
    requires EffectiveTime(p.items[0]) == Some(t) && t >= p.feed.addedSince
    ensures p.Select(2, Submitted) == [0, 1]
  {
    assert p.OutcomeOf(0) == Created(true);
    assert p.OutcomeOf(1) == Created(true);
    assert p.Select(1, Submitted) == [0];
  }

  /** Classification happens before anything is recorded, so two new items
      with the same GUID in one feed both get an issue when the search finds
      neither. */
  method DuplicateGuidCreatedTwice(feed: Feed, guid: string, t: Time)
    returns (creates: seq<IssueRequest>)
    requires t >= feed.addedSince
    ensures |creates| == 2
  {
    var item := Item(guid, "title", "", "", "link", Some(t), None);
    var r := Replies(Nil, SearchResponse(0, Nil), t, Nil, Nil);
    var store := new SQLiteStore.Open("gitlabrsssync.db", "gitlabrsssync.db.bak", {});
    var client := new RedisAdapter(store);
    var metrics := new Metrics();
    var newArticle, oldArticle, searches;
    newArticle, oldArticle, searches, creates := CheckFeed(feed, [item, item], Nil, [r, r], client, metrics);
    ghost var p := Pass(feed, [item, item], [r, r], {}, true);
    BothSubmitted(p, t);
    RequestsOnePerIndex(p, [0, 1]);
  }

  /** The sleep between poll cycles: `Interval` seconds, computed as a wrapping
      64-bit product, or ten minutes when that product is not positive. */
  function SleepDuration(interval: int64): (d: Duration)
    ensures 0 < d <= MaxInt64
    ensures MinInt64 <= interval as int * Second <= MaxInt64 ==>
              d == if interval > 0 then interval as int * Second else 10 * Minute
  {
    var product := WrapInt64(interval as int * Second);
    if product <= 0 then 10 * Minute else product
  }

  /** An interval whose product does not fit in 64 bits wraps around:
      18446744074 seconds polls again after about 0.29 seconds, 9223372037
      seconds after ten minutes, and -9223372037 seconds, which is not
      positive, after about 292 years. */
  lemma OverflowingIntervals()
    ensures SleepDuration(18446744074) == 290_448_384
    ensures SleepDuration(9223372037) == 10 * Minute
    ensures SleepDuration(-9223372037) == 9_223_372_036_709_551_616
  {
  }
}
