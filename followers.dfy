/**
 * The aggregation step of `info`: every followed account gets the ids of the
 * lists it is a member of, then each account is cut down to the seven fields
 * the web front-end reads, with its numeric id turned into a decimal string.
 *
 * The source attaches a `lists` field to each follower record in place and
 * reaches the records through `followermap`, a dict that aliases them by id.
 * Here the records' `lists` fields are a sequence parallel to `followers`, and
 * the alias map sends an id to the position of the record it aliases.
 */
module Followers {
  import opened Wrappers
  import opened Strings
  import opened Pagination

  type AccountId = nat
  type ListId = nat

  /** The fields of an account record that the handler reads. */
  datatype Account = Account(id: AccountId, displayName: string, username: string, acct: string, note: string, avatar: string)

  /** A list record, passed back to the caller unchanged. */
  datatype ListInfo = ListInfo(id: ListId, title: string)

  /** One entry of the `followers` output: exactly the seven keys the front-end reads. */
  datatype Person = Person(id: string, lists: seq<ListId>, displayName: string, username: string, acct: string, note: string, avatar: string)

  /** The caller's own account, as `me()` returns it. */
  datatype Me = Me(id: AccountId, username: string, acct: string, displayName: string)

  /** The `me` output. */
  datatype MeSummary = MeSummary(username: string, acct: string, displayName: string)

  /**
   * `m` is a `followermap` for `followers`: it holds every record's id, maps
   * each id to a record with that id, and never to one before a record with
   * the same id.
   */
  predicate KeepsLast(followers: seq<Account>, m: map<AccountId, nat>)
  {
    && (forall k :: 0 <= k < |followers| ==> followers[k].id in m && k <= m[followers[k].id])
    && (forall id :: id in m ==> m[id] < |followers| && followers[m[id]].id == id)
  }

  /**
   * `{x["id"]: x for x in followers}`: each id maps to the position of the
   * record the dict keeps for it, which is the last record with that id.
   */
  function FollowerMap(followers: seq<Account>): (m: map<AccountId, nat>)
    ensures KeepsLast(followers, m)
    decreases |followers|
  {
    if followers == [] then map[]
    else
      var n := |followers| - 1;
      var earlier := FollowerMap(followers[..n]);
      KeepsLastStep(followers, earlier);
      earlier[followers[n].id := n]
  }

  /** Entering the last record under its id turns a map of the other records into one of all of them. */
  lemma KeepsLastStep(followers: seq<Account>, earlier: map<AccountId, nat>)
    requires followers != [] && KeepsLast(followers[..|followers| - 1], earlier)
    ensures KeepsLast(followers, earlier[followers[|followers| - 1].id := |followers| - 1])
  {
    var n := |followers| - 1;
    var m := earlier[followers[n].id := n];
    forall k | 0 <= k < |followers|
      ensures followers[k].id in m && k <= m[followers[k].id]
    {
      if k < n {
        assert followers[..n][k] == followers[k];
      }
    }
    forall id | id in m
      ensures m[id] < |followers| && followers[m[id]].id == id
    {
      if id != followers[n].id {
        assert followers[..n][earlier[id]] == followers[earlier[id]];
      }
    }
  }

  /**
   * Record `k` is the one the dict keeps for its id: no later record has
   * the same id.
   */
  predicate IsMapped(followers: seq<Account>, k: nat)
    requires k < |followers|
  {
    forall j :: k < j < |followers| ==> followers[j].id != followers[k].id
  }

  /**
   * Among records sharing an id, the dict keeps the last one: `followermap`
   * reaches a record by its id exactly when no later record has that id.
   */
  lemma LastDuplicateWins(followers: seq<Account>, k: nat)
    requires k < |followers|
    ensures FollowerMap(followers)[followers[k].id] == k <==> IsMapped(followers, k)
  {
    ReachesRecord(followers, FollowerMap(followers), k, followers[k].id);
  }

  /** A `followermap` sends an id to record `k` exactly when that record is kept and has the id. */
  lemma ReachesRecord(followers: seq<Account>, m: map<AccountId, nat>, k: nat, id: AccountId)
    requires KeepsLast(followers, m) && k < |followers|
    ensures (id in m && m[id] == k) <==> (IsMapped(followers, k) && id == followers[k].id)
  {
    var own := followers[k].id;
    if m[own] != k {
      assert k < m[own] && followers[m[own]].id == own;
    } else {
      forall j | k < j < |followers|
        ensures followers[j].id != own
      {
        assert j <= m[followers[j].id];
      }
    }
  }

  /** Number of members of a list that have the given id. */
  function CountId(accts: seq<Account>, id: AccountId): nat
    decreases |accts|
  {
    if accts == [] then 0
    else CountId(accts[..|accts| - 1], id) + if accts[|accts| - 1].id == id then 1 else 0
  }

  /** `n` copies of `x`. */
  function Repeat(x: ListId, n: nat): seq<ListId>
  {
    if n == 0 then [] else Repeat(x, n - 1) + [x]
  }

  /**
   * The list ids an account collects: for each list in order, that list's id
   * once per member entry carrying the account's id.
   */
  function ListsOf(id: AccountId, lists: seq<ListInfo>, members: seq<seq<Account>>): seq<ListId>
    requires |members| == |lists|
    decreases |lists|
  {
    if lists == [] then []
    else
      var n := |lists| - 1;
      ListsOf(id, lists[..n], members[..n]) + Repeat(lists[n].id, CountId(members[n], id))
  }

  /**
   * The `lists` field of every follower record after the join: the record
   * `followermap` reaches collects its list ids; a record shadowed by a later
   * duplicate keeps the empty list it was given.
   */
  function Joined(followers: seq<Account>, lists: seq<ListInfo>, members: seq<seq<Account>>): seq<seq<ListId>>
    requires |members| == |lists|
  {
    seq(|followers|, k requires 0 <= k < |followers| =>
      if IsMapped(followers, k) then ListsOf(followers[k].id, lists, members) else [])
  }

  /** What one list adds to a record with id `id`: the list's id once per entry carrying `id`, if the record is mapped. */
  function Gained(mapped: bool, id: AccountId, listId: ListId, accts: seq<Account>): seq<ListId>
  {
    if mapped then Repeat(listId, CountId(accts, id)) else []
  }

  /**
   * The inner loop of the join: for each member of one list, append the
   * list's id to the record `followermap` reaches, if the member is followed.
   */
  method AddMembers(memberOf: seq<seq<ListId>>, followers: seq<Account>, followerMap: map<AccountId, nat>,
                    listId: ListId, accts: seq<Account>) returns (r: seq<seq<ListId>>)
    requires KeepsLast(followers, followerMap) && |memberOf| == |followers|
    ensures |r| == |followers|
    ensures forall k :: 0 <= k < |followers| ==>
      r[k] == memberOf[k] + Gained(IsMapped(followers, k), followers[k].id, listId, accts)
  {
    r := memberOf;
    for i := 0 to |accts|
      invariant |r| == |followers|
      invariant forall k :: 0 <= k < |followers| ==>
        r[k] == memberOf[k] + Gained(IsMapped(followers, k), followers[k].id, listId, accts[..i])
    {
      ghost var before := r;
      var aid := accts[i].id;
      if aid in followerMap {
        var k := followerMap[aid];
        r := r[k := r[k] + [listId]];
      }
      assert forall k :: 0 <= k < |followers| ==>
        r[k] == before[k] + if aid in followerMap && followerMap[aid] == k then [listId] else [];
      AddMembersStep(memberOf, followers, followerMap, listId, accts, i, before, r);
    }
    assert accts[..|accts|] == accts;
  }

  /** One pass of the `AddMembers` loop keeps its invariant. */
  lemma AddMembersStep(memberOf: seq<seq<ListId>>, followers: seq<Account>, m: map<AccountId, nat>, listId: ListId,
                       accts: seq<Account>, i: nat, before: seq<seq<ListId>>, r: seq<seq<ListId>>)
    requires KeepsLast(followers, m)
    requires i < |accts| && |memberOf| == |followers| && |before| == |followers| && |r| == |followers|
    requires forall k :: 0 <= k < |followers| ==>
      before[k] == memberOf[k] + Gained(IsMapped(followers, k), followers[k].id, listId, accts[..i])
    requires forall k :: 0 <= k < |followers| ==>
      r[k] == before[k] + if accts[i].id in m && m[accts[i].id] == k then [listId] else []
    ensures forall k :: 0 <= k < |followers| ==>
      r[k] == memberOf[k] + Gained(IsMapped(followers, k), followers[k].id, listId, accts[..i + 1])
  {
    forall k | 0 <= k < |followers|
      ensures r[k] == memberOf[k] + Gained(IsMapped(followers, k), followers[k].id, listId, accts[..i + 1])
    {
      GainedStep(IsMapped(followers, k), followers[k].id, listId, accts, i);
      ReachesRecord(followers, m, k, accts[i].id);
    }
  }

  /** One more member entry adds the list id exactly when the record is mapped and the entry carries its id. */
  lemma GainedStep(mapped: bool, id: AccountId, listId: ListId, accts: seq<Account>, i: nat)
    requires i < |accts|
    ensures Gained(mapped, id, listId, accts[..i + 1]) ==
      Gained(mapped, id, listId, accts[..i]) + if mapped && accts[i].id == id then [listId] else []
  {
    CountIdStep(accts, i, id);
    if mapped && accts[i].id == id {
      var c := CountId(accts[..i], id);
      assert Repeat(listId, c + 1) == Repeat(listId, c) + [listId];
    }
  }

  lemma CountIdStep(accts: seq<Account>, i: nat, id: AccountId)
    requires i < |accts|
    ensures CountId(accts[..i + 1], id) == CountId(accts[..i], id) + if accts[i].id == id then 1 else 0
  {
    assert accts[..i + 1][..i] == accts[..i];
  }

  /** The members of each list, each drained from its paginated endpoint. */
  function Members(endpoints: seq<Endpoint<Account>>): (members: seq<seq<Account>>)
    requires forall j :: 0 <= j < |endpoints| ==> endpoints[j].Valid()
    ensures |members| == |endpoints|
  {
    seq(|endpoints|, j requires 0 <= j < |endpoints| => Drained(endpoints[j]))
  }

  /** Recording the calls for one more endpoint keeps `pageCalls[i]` the calls made for endpoint `i`. */
  lemma CallsAppend(endpoints: seq<Endpoint<Account>>, pageCalls: seq<seq<Option<Cursor>>>, cursors: seq<Option<Cursor>>)
    requires |pageCalls| < |endpoints| && forall j :: 0 <= j < |endpoints| ==> endpoints[j].Valid()
    requires forall i :: 0 <= i < |pageCalls| ==> pageCalls[i] == Calls(endpoints[i])
    requires cursors == Calls(endpoints[|pageCalls|])
    ensures forall i :: 0 <= i < |pageCalls| + 1 ==> (pageCalls + [cursors])[i] == Calls(endpoints[i])
  {
  }

  /** Taking one more list into the join appends what that list gives each record. */
  lemma JoinedStep(followers: seq<Account>, lists: seq<ListInfo>, members: seq<seq<Account>>, j: nat,
                   before: seq<seq<ListId>>, next: seq<seq<ListId>>)
    requires |members| == |lists| && j < |lists|
    requires before == Joined(followers, lists[..j], members[..j])
    requires |next| == |followers|
    requires forall k :: 0 <= k < |followers| ==>
      next[k] == before[k] + Gained(IsMapped(followers, k), followers[k].id, lists[j].id, members[j])
    ensures next == Joined(followers, lists[..j + 1], members[..j + 1])
  {
    assert lists[..j + 1][..j] == lists[..j] && members[..j + 1][..j] == members[..j];
  }

  /**
   * The outer loop of the join: give every record an empty `lists`, then
   * for each list drain its members and add them. `pageCalls[j]` records the
   * `max_id` of each call made for list `j`.
   */
  method JoinMemberships(followers: seq<Account>, lists: seq<ListInfo>, endpoints: seq<Endpoint<Account>>)
    returns (memberOf: seq<seq<ListId>>, pageCalls: seq<seq<Option<Cursor>>>)
    requires |endpoints| == |lists|
    requires forall j :: 0 <= j < |endpoints| ==> endpoints[j].Valid()
    ensures memberOf == Joined(followers, lists, Members(endpoints))
    ensures |pageCalls| == |lists| && forall j :: 0 <= j < |lists| ==> pageCalls[j] == Calls(endpoints[j])
  {
    memberOf := seq(|followers|, k => []);
    var followerMap := FollowerMap(followers);
    pageCalls := [];
    ghost var members := Members(endpoints);
    for j := 0 to |lists|
      invariant memberOf == Joined(followers, lists[..j], members[..j])
      invariant |pageCalls| == j && forall i :: 0 <= i < j ==> pageCalls[i] == Calls(endpoints[i])
    {
      var accts, cursors := GetAll(endpoints[j]);
      assert accts == members[j];
      var next := AddMembers(memberOf, followers, followerMap, lists[j].id, accts);
      JoinedStep(followers, lists, members, j, memberOf, next);
      memberOf := next;
      CallsAppend(endpoints, pageCalls, cursors);
      pageCalls := pageCalls + [cursors];
    }
    assert lists[..|lists|] == lists && members[..|lists|] == members;
  }

  /**
   * An account collects a list's id exactly when some member entry of that
   * list carries the account's id.
   */
  lemma {:induction false} ListsOfMembership(id: AccountId, lists: seq<ListInfo>, members: seq<seq<Account>>, x: ListId)
    requires |members| == |lists|
    ensures x in ListsOf(id, lists, members) <==>
      exists j :: 0 <= j < |lists| && lists[j].id == x && CountId(members[j], id) > 0
    decreases |lists|
  {
    if lists != [] {
      var n := |lists| - 1;
      ListsOfMembership(id, lists[..n], members[..n], x);
      RepeatMembership(lists[n].id, CountId(members[n], id), x);
      assert ListsOf(id, lists, members) == ListsOf(id, lists[..n], members[..n]) + Repeat(lists[n].id, CountId(members[n], id));
      if exists j :: 0 <= j < n && lists[..n][j].id == x && CountId(members[..n][j], id) > 0 {
        var j :| 0 <= j < n && lists[..n][j].id == x && CountId(members[..n][j], id) > 0;
        assert lists[j].id == x && CountId(members[j], id) > 0;
      }
      if exists j :: 0 <= j < |lists| && lists[j].id == x && CountId(members[j], id) > 0 {
        var j :| 0 <= j < |lists| && lists[j].id == x && CountId(members[j], id) > 0;
        if j < n {
          assert lists[..n][j].id == x && CountId(members[..n][j], id) > 0;
        }
      }
    }
  }

  lemma {:induction false} RepeatMembership(y: ListId, n: nat, x: ListId)
    ensures x in Repeat(y, n) <==> n > 0 && x == y
  {
    if n > 0 {
      RepeatMembership(y, n - 1, x);
    }
  }

  /** A member entry carrying another id does not change that id's count. */
  lemma {:induction false} CountIdIgnoresOthers(accts: seq<Account>, a: Account, id: AccountId)
    requires a.id != id
    ensures CountId(accts + [a], id) == CountId(accts, id)
  {
    assert (accts + [a])[..|accts|] == accts;
  }

  lemma {:induction false} ListsOfIgnoresOthers(id: AccountId, lists: seq<ListInfo>, members: seq<seq<Account>>, j: nat, a: Account)
    requires |members| == |lists| && j < |lists| && a.id != id
    ensures ListsOf(id, lists, members[j := members[j] + [a]]) == ListsOf(id, lists, members)
    decreases |lists|
  {
    var n := |lists| - 1;
    var members' := members[j := members[j] + [a]];
    if j < n {
      assert members'[..n] == members[..n][j := members[j] + [a]];
      ListsOfIgnoresOthers(id, lists[..n], members[..n], j, a);
    } else {
      assert members'[..n] == members[..n];
      CountIdIgnoresOthers(members[n], a, id);
    }
  }

  /**
   * Members who are not followed change nothing: adding one to any list
   * leaves every follower's `lists` as it was, and no follower is added.
   */
  lemma UnfollowedMemberIgnored(followers: seq<Account>, lists: seq<ListInfo>, members: seq<seq<Account>>, j: nat, a: Account)
    requires |members| == |lists| && j < |lists|
    requires forall k :: 0 <= k < |followers| ==> followers[k].id != a.id
    ensures Joined(followers, lists, members[j := members[j] + [a]]) == Joined(followers, lists, members)
  {
    forall k | 0 <= k < |followers|
      ensures ListsOf(followers[k].id, lists, members[j := members[j] + [a]]) == ListsOf(followers[k].id, lists, members)
    {
      ListsOfIgnoresOthers(followers[k].id, lists, members, j, a);
    }
  }

  /**
   * With distinct follower ids, every follower's `lists` are the ids of the
   * lists it is on, in list order, once per membership entry.
   */
  lemma DistinctFollowersAllJoined(followers: seq<Account>, lists: seq<ListInfo>, members: seq<seq<Account>>)
    requires |members| == |lists|
    requires forall i, j :: 0 <= i < j < |followers| ==> followers[i].id != followers[j].id
    ensures |Joined(followers, lists, members)| == |followers|
    ensures forall k :: 0 <= k < |followers| ==> Joined(followers, lists, members)[k] == ListsOf(followers[k].id, lists, members)
  {
  }

  /**
   * The outgoing entry for one follower: its id as the canonical decimal
   * string (no leading zero) that reads back as the same number, its
   * `lists`, and five fields copied.
   */
  function Project(a: Account, lists: seq<ListId>): (p: Person)
    ensures IsDigits(p.id) && DecimalToNat(p.id) == a.id
    ensures |p.id| > 0 && (p.id[0] == '0' ==> |p.id| == 1)
    ensures p.lists == lists
    ensures p.displayName == a.displayName && p.username == a.username && p.acct == a.acct
    ensures p.note == a.note && p.avatar == a.avatar
  {
    DecimalRoundTrip(a.id);
    Person(NatToDecimal(a.id), lists, a.displayName, a.username, a.acct, a.note, a.avatar)
  }

  /**
   * The `outpeople` comprehension: one entry per follower record, in order,
   * entry `k` carrying follower `k`'s id and the lists gathered for it.
   */
  function Projected(followers: seq<Account>, memberOf: seq<seq<ListId>>): (out: seq<Person>)
    requires |memberOf| == |followers|
    ensures |out| == |followers|
    ensures forall k :: 0 <= k < |followers| ==>
      && IsDigits(out[k].id) && DecimalToNat(out[k].id) == followers[k].id
      && |out[k].id| > 0 && (out[k].id[0] == '0' ==> |out[k].id| == 1)
      && out[k].lists == memberOf[k]
  {
    seq(|followers|, k requires 0 <= k < |followers| => Project(followers[k], memberOf[k]))
  }

  /**
   * The output keeps the followers' number and order (entry `k` comes from
   * follower `k`), and two entries share an `id` string exactly when their
   * records share an id.
   */
  lemma ProjectedFollowers(followers: seq<Account>, memberOf: seq<seq<ListId>>)
    requires |memberOf| == |followers|
    ensures |Projected(followers, memberOf)| == |followers|
    ensures forall k :: 0 <= k < |followers| ==>
      && IsDigits(Projected(followers, memberOf)[k].id)
      && DecimalToNat(Projected(followers, memberOf)[k].id) == followers[k].id
      && |Projected(followers, memberOf)[k].id| > 0
      && (Projected(followers, memberOf)[k].id[0] == '0' ==> |Projected(followers, memberOf)[k].id| == 1)
      && Projected(followers, memberOf)[k].lists == memberOf[k]
    ensures forall i, j :: 0 <= i < |followers| && 0 <= j < |followers| ==>
      (Projected(followers, memberOf)[i].id == Projected(followers, memberOf)[j].id <==> followers[i].id == followers[j].id)
  {
    forall i, j | 0 <= i < |followers| && 0 <= j < |followers| &&
      Projected(followers, memberOf)[i].id == Projected(followers, memberOf)[j].id
      ensures followers[i].id == followers[j].id
    {
      DecimalInjective(followers[i].id, followers[j].id);
    }
  }

  /**
   * `meinfo`: the caller's names unchanged, and `acct` the caller's handle,
   * then `@`, then the domain stored with the session.
   */
  function Summary(me: Me, domain: string): (s: MeSummary)
    ensures s.username == me.username && s.displayName == me.displayName
    ensures |s.acct| == |me.acct| + 1 + |domain|
    ensures s.acct[..|me.acct|] == me.acct && s.acct[|me.acct|] == '@' && s.acct[|me.acct| + 1..] == domain
  {
    MeSummary(me.username, me.acct + "@" + domain, me.displayName)
  }

  /**
   * The `me` output keeps the caller's names, and its `acct` splits at the
   * `@` back into the caller's handle and the stored domain.
   */
  lemma SummaryHandle(me: Me, domain: string)
    requires '@' !in me.acct && '@' !in domain
    ensures Summary(me, domain).username == me.username && Summary(me, domain).displayName == me.displayName
    ensures Split(Summary(me, domain).acct, '@') == [me.acct, domain]
  {
    SplitAtFirst(me.acct, domain, '@');
    SplitWhole(domain, '@');
  }

  /**
   * Followed accounts A and B; list L1 holds A and an unfollowed C; list L2
   * holds B. A is on L1 only, B on L2 only, and C appears nowhere in the
   * output.
   */
  lemma JoinExample(a: Account, b: Account, c: Account, l1: ListInfo, l2: ListInfo)
    requires a.id == 1 && b.id == 2 && c.id == 3 && l1.id == 10 && l2.id == 20
    ensures Joined([a, b], [l1, l2], [[a, c], [b]]) == [[10], [20]]
    ensures forall p :: p in Projected([a, b], Joined([a, b], [l1, l2], [[a, c], [b]])) ==> DecimalToNat(p.id) != c.id
  {
    var fs, ls, ms := [a, b], [l1, l2], [[a, c], [b]];
    ExampleMemberships(a, b, c, l1, l2);
    var joined := Joined(fs, ls, ms);
    assert joined[0] == [10] && joined[1] == [20];
    var out := Projected(fs, joined);
    forall p | p in out
      ensures DecimalToNat(p.id) != c.id
    {
      var k :| 0 <= k < |out| && out[k] == p;
    }
  }

  lemma ExampleMemberships(a: Account, b: Account, c: Account, l1: ListInfo, l2: ListInfo)
    requires a.id == 1 && b.id == 2 && c.id == 3 && l1.id == 10 && l2.id == 20
    ensures ListsOf(1, [l1, l2], [[a, c], [b]]) == [10]
    ensures ListsOf(2, [l1, l2], [[a, c], [b]]) == [20]
  {
    var ls, ms := [l1, l2], [[a, c], [b]];
    assert ls[..1] == [l1] && ms[..1] == [[a, c]] && [l1][..0] == [] && [[a, c]][..0] == [];
    assert [a, c][..1] == [a] && [a][..0] == [] && [b][..0] == [];
    assert CountId([a], 1) == 1 && CountId([a], 2) == 0;
    assert CountId([a, c], 1) == 1 && CountId([a, c], 2) == 0;
    assert CountId([b], 1) == 0 && CountId([b], 2) == 1;
    assert Repeat(10, 1) == [10] && Repeat(20, 1) == [20];
    assert ListsOf(2, [l1], [[a, c]]) == ListsOf(2, [], []) + Repeat(10, CountId([a, c], 2));
    assert ListsOf(1, [l1], [[a, c]]) == [10] && ListsOf(2, [l1], [[a, c]]) == [];
  }

  /** An id beyond 32 bits keeps every digit: 123456789012345 is output as "123456789012345". */
  lemma LargeIdExample(a: Account, lists: seq<ListId>)
    requires a.id == 123456789012345
    ensures Project(a, lists).id == "123456789012345"
  {
    TenDigits();
    assert NatToDecimal(12345678901) == NatToDecimal(1234567890) + "1";
    assert NatToDecimal(123456789012) == NatToDecimal(12345678901) + "2";
    assert NatToDecimal(1234567890123) == NatToDecimal(123456789012) + "3";
    assert NatToDecimal(12345678901234) == NatToDecimal(1234567890123) + "4";
    assert NatToDecimal(123456789012345) == NatToDecimal(12345678901234) + "5";
  }

  lemma TenDigits()
    ensures NatToDecimal(1234567890) == "1234567890"
  {
    FiveDigits();
    assert NatToDecimal(123456) == NatToDecimal(12345) + "6";
    assert NatToDecimal(1234567) == NatToDecimal(123456) + "7";
    assert NatToDecimal(12345678) == NatToDecimal(1234567) + "8";
    assert NatToDecimal(123456789) == NatToDecimal(12345678) + "9";
    assert NatToDecimal(1234567890) == NatToDecimal(123456789) + "0";
  }

  lemma FiveDigits()
    ensures NatToDecimal(12345) == "12345"
  {
    assert NatToDecimal(1) == "1";
    assert NatToDecimal(12) == NatToDecimal(1) + "2";
    assert NatToDecimal(123) == NatToDecimal(12) + "3";
    assert NatToDecimal(1234) == NatToDecimal(123) + "4";
    assert NatToDecimal(12345) == NatToDecimal(1234) + "5";
  }
}
