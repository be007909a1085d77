/** The chat sidebar's list bookkeeping: the user's chats split into pinned
    and recent chats, each most recent first; loading them; and the local
    update after a pin toggle, which moves the chat from one list to the
    other without reloading. */
module AppSidebar {
  import opened Wrappers
  import Lists
  import opened PinnedActions

  predicate IsPinned(c: Chat)
  {
    c.pinned
  }

  predicate IsUnpinned(c: Chat)
  {
    !c.pinned
  }

  /** The chats stamped with time `t`. */
  function AtTime(t: int): Chat -> bool
  {
    (c: Chat) => c.timestamp == t
  }

  /** The chats of a list stamped with time `t`, in their order. */
  function WithTimestamp(cs: seq<Chat>, t: int): seq<Chat>
  {
    Lists.Filter(cs, AtTime(t))
  }

  /** Every chat but the one with id `chatId`. */
  function OtherThan(chatId: string): Chat -> bool
  {
    (c: Chat) => c.id != chatId
  }

  /** Most recent first: the order the comparator
      `(a, b) => b.timestamp - a.timestamp` asks for. */
  predicate SortedByRecency(cs: seq<Chat>)
  {
    forall i, j :: 0 <= i < j < |cs| ==> cs[i].timestamp >= cs[j].timestamp
  }

  // ---------------------------------------------------------------------
  // The stable sort
  // ---------------------------------------------------------------------

  /** `c` put into a list before the first chat that is not more recent. */
  function Insert(c: Chat, sorted: seq<Chat>): (r: seq<Chat>)
    ensures multiset(r) == multiset(sorted) + multiset{c}
  {
    if |sorted| == 0 || sorted[0].timestamp <= c.timestamp then [c] + sorted
    else
      assert sorted == [sorted[0]] + sorted[1..];
      [sorted[0]] + Insert(c, sorted[1..])
  }

  /** A list whose tail is sorted and holds nothing more recent than its
      head is sorted. */
  lemma SortedCons(x: Chat, ys: seq<Chat>)
    requires SortedByRecency(ys)
    requires forall y :: y in ys ==> y.timestamp <= x.timestamp
    ensures SortedByRecency([x] + ys)
  {
    var xs := [x] + ys;
    forall i, j | 0 <= i < j < |xs|
      ensures xs[i].timestamp >= xs[j].timestamp
    {
      assert xs[j] == ys[j - 1];
      if i > 0 {
        assert xs[i] == ys[i - 1];
      }
    }
  }

  lemma {:induction false} InsertSorted(c: Chat, sorted: seq<Chat>)
    requires SortedByRecency(sorted)
    ensures SortedByRecency(Insert(c, sorted))
  {
    if |sorted| == 0 || sorted[0].timestamp <= c.timestamp {
      forall y | y in sorted
        ensures y.timestamp <= c.timestamp
      {
        var j :| 0 <= j < |sorted| && sorted[j] == y;
        assert sorted[0].timestamp >= sorted[j].timestamp;
      }
      SortedCons(c, sorted);
    } else {
      var rest := sorted[1..];
      InsertSorted(c, rest);
      forall y | y in Insert(c, rest)
        ensures y.timestamp <= sorted[0].timestamp
      {
        assert y in multiset(Insert(c, rest));
        if y != c {
          var j :| 0 <= j < |rest| && rest[j] == y;
          assert sorted[0].timestamp >= sorted[j + 1].timestamp;
        }
      }
      SortedCons(sorted[0], Insert(c, rest));
    }
  }

  /** Inserting keeps the order among chats with the same timestamp, `c`
      going first. */
  lemma {:induction false} InsertStable(c: Chat, sorted: seq<Chat>, t: int)
    ensures WithTimestamp(Insert(c, sorted), t) == WithTimestamp([c], t) + WithTimestamp(sorted, t)
  {
    if |sorted| == 0 || sorted[0].timestamp <= c.timestamp {
      assert Insert(c, sorted) == [c] + sorted;
      Lists.FilterAppend([c], sorted, AtTime(t));
    } else {
      var head, rest := sorted[0], sorted[1..];
      InsertStable(c, rest, t);
      assert Insert(c, sorted) == [head] + Insert(c, rest);
      assert sorted == [head] + rest;
      ConsBeforeEarlier(c, head, Insert(c, rest), rest, t);
    }
  }

  /** A chat more recent than `c` placed in front of a list that holds
      `c` and then `rest`, as far as the chats stamped `t` go. */
  lemma ConsBeforeEarlier(c: Chat, head: Chat, ins: seq<Chat>, rest: seq<Chat>, t: int)
    requires head.timestamp > c.timestamp
    requires WithTimestamp(ins, t) == WithTimestamp([c], t) + WithTimestamp(rest, t)
    ensures WithTimestamp([head] + ins, t) == WithTimestamp([c], t) + WithTimestamp([head] + rest, t)
  {
    var p := AtTime(t);
    Lists.FilterAppend([head], ins, p);
    Lists.FilterAppend([head], rest, p);
    var fh, fc, fr := WithTimestamp([head], t), WithTimestamp([c], t), WithTimestamp(rest, t);
    // `head` is more recent than `c`, so at most one of them is stamped `t`.
    FilterOne(head, p);
    FilterOne(c, p);
    if head.timestamp == t {
      assert fc == [];
      assert fh + ([] + fr) == [] + (fh + fr);
    } else {
      assert fh == [];
      assert [] + (fc + fr) == fc + ([] + fr);
    }
  }

  /** Filtering a one-element list. */
  lemma FilterOne(x: Chat, p: Chat -> bool)
    ensures Lists.Filter([x], p) == if p(x) then [x] else []
  {
    assert [x][1..] == [];
  }

  /** The stable sort by recency: sorted, a permutation of its input. */
  function SortByRecency(cs: seq<Chat>): (r: seq<Chat>)
    ensures SortedByRecency(r)
    ensures multiset(r) == multiset(cs)
  {
    if |cs| == 0 then []
    else
      var sortedTail := SortByRecency(cs[1..]);
      InsertSorted(cs[0], sortedTail);
      assert cs == [cs[0]] + cs[1..];
      Insert(cs[0], sortedTail)
  }

  /** The sort is stable: chats with equal timestamps keep their input
      order. */
  lemma {:induction false} SortStable(cs: seq<Chat>, t: int)
    ensures WithTimestamp(SortByRecency(cs), t) == WithTimestamp(cs, t)
  {
    if |cs| > 0 {
      SortStable(cs[1..], t);
      InsertStable(cs[0], SortByRecency(cs[1..]), t);
      Lists.FilterAppend([cs[0]], cs[1..], AtTime(t));
      assert cs == [cs[0]] + cs[1..];
    }
  }

  /** A list's head is in its own timestamp class. */
  lemma HeadInClass(cs: seq<Chat>)
    ensures |cs| > 0 ==> cs[0] in WithTimestamp(cs, cs[0].timestamp)
  {
  }

  /** A sorted list and the timestamp classes it holds, each in order,
      determine one another: any stable sort by recency gives the result
      `SortByRecency` gives. */
  lemma {:induction false} StableSortUnique(a: seq<Chat>, b: seq<Chat>)
    requires SortedByRecency(a) && SortedByRecency(b)
    requires forall t :: WithTimestamp(a, t) == WithTimestamp(b, t)
    ensures a == b
    decreases |a|
  {
    if |a| == 0 || |b| == 0 {
      HeadInClass(a);
      HeadInClass(b);
    } else {
      var ta := a[0].timestamp;
      var tb := b[0].timestamp;
      assert ta <= tb by {
        Lists.FilterMembers(b, AtTime(ta));
        assert a[0] in WithTimestamp(b, ta);
        var j :| 0 <= j < |b| && b[j] == a[0];
      }
      assert tb <= ta by {
        Lists.FilterMembers(a, AtTime(tb));
        assert b[0] in WithTimestamp(a, tb);
        var j :| 0 <= j < |a| && a[j] == b[0];
      }
      assert WithTimestamp(a, ta) == [a[0]] + WithTimestamp(a[1..], ta);
      assert WithTimestamp(b, ta) == [b[0]] + WithTimestamp(b[1..], ta);
      assert WithTimestamp(a, ta) == WithTimestamp(b, ta);
      assert a[0] == WithTimestamp(a, ta)[0] == WithTimestamp(b, ta)[0] == b[0];
      forall t
        ensures WithTimestamp(a[1..], t) == WithTimestamp(b[1..], t)
      {
        if t != ta {
          assert WithTimestamp(a, t) == WithTimestamp(a[1..], t);
          assert WithTimestamp(b, t) == WithTimestamp(b[1..], t);
        } else {
          assert WithTimestamp(a[1..], t) == WithTimestamp(a, t)[1..];
          assert WithTimestamp(b[1..], t) == WithTimestamp(b, t)[1..];
        }
      }
      StableSortUnique(a[1..], b[1..]);
      assert a == [a[0]] + a[1..] && b == [b[0]] + b[1..];
    }
  }

  /** Filtering a sorted list leaves it sorted. */
  lemma {:induction false} FilterSorted(xs: seq<Chat>, p: Chat -> bool)
    requires SortedByRecency(xs)
    ensures SortedByRecency(Lists.Filter(xs, p))
  {
    if |xs| > 0 {
      var rest := xs[1..];
      FilterSorted(rest, p);
      if p(xs[0]) {
        Lists.FilterMembers(rest, p);
        forall y | y in Lists.Filter(rest, p)
          ensures y.timestamp <= xs[0].timestamp
        {
          var j :| 0 <= j < |rest| && rest[j] == y;
          assert xs[0].timestamp >= xs[j + 1].timestamp;
        }
        SortedCons(xs[0], Lists.Filter(rest, p));
      }
    }
  }

  /** Sorting and then filtering is filtering and then sorting. */
  lemma SortFilterCommute(xs: seq<Chat>, p: Chat -> bool)
    ensures Lists.Filter(SortByRecency(xs), p) == SortByRecency(Lists.Filter(xs, p))
  {
    var left := Lists.Filter(SortByRecency(xs), p);
    var right := SortByRecency(Lists.Filter(xs, p));
    FilterSorted(SortByRecency(xs), p);
    forall t
      ensures WithTimestamp(left, t) == WithTimestamp(right, t)
    {
      Lists.FilterCommute(SortByRecency(xs), p, AtTime(t));
      SortStable(xs, t);
      Lists.FilterCommute(xs, AtTime(t), p);
      SortStable(Lists.Filter(xs, p), t);
    }
    StableSortUnique(left, right);
  }

  // ---------------------------------------------------------------------
  // Pinned and recent chats
  // ---------------------------------------------------------------------

  /** `pinnedAndRecentChats(userChats)`: the pinned chats and the others,
      each most recent first. */
  function PinnedAndRecentChats(userChats: seq<Chat>): (r: (seq<Chat>, seq<Chat>))
    ensures forall c :: c in r.0 <==> c in userChats && c.pinned
    ensures forall c :: c in r.1 <==> c in userChats && !c.pinned
    ensures multiset(r.0) + multiset(r.1) == multiset(userChats)
    ensures SortedByRecency(r.0) && SortedByRecency(r.1)
  {
    var pinned := Lists.Filter(userChats, IsPinned);
    var recent := Lists.Filter(userChats, IsUnpinned);
    Lists.FilterSplits(userChats, IsPinned, IsUnpinned);
    Lists.FilterMembers(userChats, IsPinned);
    Lists.FilterMembers(userChats, IsUnpinned);
    SortKeepsMembers(pinned);
    SortKeepsMembers(recent);
    (SortByRecency(pinned), SortByRecency(recent))
  }

  lemma SortKeepsMembers(cs: seq<Chat>)
    ensures forall c :: c in SortByRecency(cs) <==> c in cs
  {
    assert forall c :: c in SortByRecency(cs) <==> c in multiset(SortByRecency(cs));
    assert forall c :: c in cs <==> c in multiset(cs);
  }

  /** Chats of either list with equal timestamps keep their order in the
      input. */
  lemma PinnedAndRecentStable(userChats: seq<Chat>, t: int)
    ensures WithTimestamp(PinnedAndRecentChats(userChats).0, t) == WithTimestamp(Lists.Filter(userChats, IsPinned), t)
    ensures WithTimestamp(PinnedAndRecentChats(userChats).1, t) == WithTimestamp(Lists.Filter(userChats, IsUnpinned), t)
  {
    SortStable(Lists.Filter(userChats, IsPinned), t);
    SortStable(Lists.Filter(userChats, IsUnpinned), t);
  }

  // ---------------------------------------------------------------------
  // The local update after a toggle
  // ---------------------------------------------------------------------

  /** `chats.find((c) => c.id === chatId)`: the first chat with that id. */
  function FindChat(cs: seq<Chat>, chatId: string): (r: Option<Chat>)
    ensures r.Some? ==> r.value in cs && r.value.id == chatId
    ensures r.Some? ==> exists k :: 0 <= k < |cs| && cs[k] == r.value && forall c :: c in cs[..k] ==> c.id != chatId
    ensures r.None? ==> forall c :: c in cs ==> c.id != chatId
  {
    if |cs| == 0 then None
    else if cs[0].id == chatId then
      assert cs[..0] == [];
      Some(cs[0])
    else
      var r := FindChat(cs[1..], chatId);
      if r.Some? then
        var k :| 0 <= k < |cs[1..]| && cs[1..][k] == r.value && forall c :: c in cs[1..][..k] ==> c.id != chatId;
        assert cs[k + 1] == r.value;
        assert cs[..k + 1] == [cs[0]] + cs[1..][..k];
        r
      else r
  }

  /** The chats with the toggled one's flag and timestamp replaced. */
  function Updated(cs: seq<Chat>, chatId: string, pinned: bool, ts: int): seq<Chat>
  {
    seq(|cs|, i requires 0 <= i < |cs| =>
      if cs[i].id == chatId then cs[i].(pinned := pinned, timestamp := ts) else cs[i])
  }

  /** The chats, pinned chats and recent chats after `handleTogglePin`
      receives `outcome`: on success the chat gets the new flag and
      timestamp, joins the list it now belongs to (which is sorted again) and
      leaves the other; otherwise nothing changes. */
  function AfterToggle(chats: seq<Chat>, pinned: seq<Chat>, recent: seq<Chat>, chatId: string,
                       outcome: Result<ToggleResult, Thrown>): (seq<Chat>, seq<Chat>, seq<Chat>)
  {
    if outcome.Ok? && outcome.value.Toggled? then
      var p := outcome.value.pinned;
      var ts := outcome.value.newTimestamp;
      var newChats := Updated(chats, chatId, p, ts);
      match FindChat(chats, chatId)
      case None => (newChats, pinned, recent)
      case Some(c) =>
        var moved := c.(pinned := p, timestamp := ts);
        if p then (newChats, SortByRecency(pinned + [moved]), Lists.Filter(recent, OtherThan(chatId)))
        else (newChats, Lists.Filter(pinned, OtherThan(chatId)), SortByRecency(recent + [moved]))
    else (chats, pinned, recent)
  }

  /** No two chats share an id. */
  predicate UniqueIds(cs: seq<Chat>)
  {
    forall i, j :: 0 <= i < j < |cs| ==> cs[i].id != cs[j].id
  }

  /** Filtering a list around one chat. */
  lemma FilterAround(pre: seq<Chat>, x: Chat, post: seq<Chat>, q: Chat -> bool)
    ensures q(x) ==> Lists.Filter(pre + [x] + post, q) == Lists.Filter(pre, q) + [x] + Lists.Filter(post, q)
    ensures !q(x) ==> Lists.Filter(pre + [x] + post, q) == Lists.Filter(pre, q) + Lists.Filter(post, q)
  {
    Lists.FilterAppend(pre + [x], post, q);
    Lists.FilterAppend(pre, [x], q);
    assert [x][1..] == [];
    assert Lists.Filter([x], q) == if q(x) then [x] else [];
  }

  /** The list the moved chat joins, sorted again, is the list a reload
      would show. */
  lemma AddedSide(pre: seq<Chat>, c: Chat, moved: Chat, post: seq<Chat>, q: Chat -> bool)
    requires !q(c) && q(moved)
    requires forall x :: x in pre + post ==> x.timestamp < moved.timestamp
    ensures SortByRecency(SortByRecency(Lists.Filter(pre + [c] + post, q)) + [moved])
         == SortByRecency(Lists.Filter(pre + [moved] + post, q))
  {
    var fPre := Lists.Filter(pre, q);
    var fPost := Lists.Filter(post, q);
    FilterAround(pre, c, post, q);
    FilterAround(pre, moved, post, q);
    Lists.FilterMembers(pre, q);
    Lists.FilterMembers(post, q);
    forall x: Chat | x in fPre + fPost
      ensures x.timestamp < moved.timestamp
    {
      assert x in pre + post;
    }
    var left := SortByRecency(SortByRecency(fPre + fPost) + [moved]);
    var right := SortByRecency(fPre + [moved] + fPost);
    forall t
      ensures WithTimestamp(left, t) == WithTimestamp(right, t)
    {
      AddedAt(fPre, fPost, moved, t);
    }
    StableSortUnique(left, right);
  }

  /** One timestamp class of `AddedSide`'s two lists. */
  lemma AddedAt(fPre: seq<Chat>, fPost: seq<Chat>, moved: Chat, t: int)
    requires forall x :: x in fPre + fPost ==> x.timestamp < moved.timestamp
    ensures WithTimestamp(SortByRecency(SortByRecency(fPre + fPost) + [moved]), t)
         == WithTimestamp(SortByRecency(fPre + [moved] + fPost), t)
  {
    var sorted := SortByRecency(fPre + fPost);
    calc {
      WithTimestamp(SortByRecency(sorted + [moved]), t);
    == { SortStable(sorted + [moved], t); }
      WithTimestamp(sorted + [moved], t);
    == { Lists.FilterAppend(sorted, [moved], AtTime(t)); SortStable(fPre + fPost, t); }
      WithTimestamp(fPre + fPost, t) + WithTimestamp([moved], t);
    == { Lists.FilterAppend(fPre, fPost, AtTime(t)); }
      WithTimestamp(fPre, t) + WithTimestamp(fPost, t) + WithTimestamp([moved], t);
    == { if t == moved.timestamp {
           Lists.FilterNone(fPre, AtTime(t));
           Lists.FilterNone(fPost, AtTime(t));
         } }
      WithTimestamp(fPre, t) + WithTimestamp([moved], t) + WithTimestamp(fPost, t);
    == { Lists.FilterAppend(fPre + [moved], fPost, AtTime(t));
         Lists.FilterAppend(fPre, [moved], AtTime(t)); }
      WithTimestamp(fPre + [moved] + fPost, t);
    == { SortStable(fPre + [moved] + fPost, t); }
      WithTimestamp(SortByRecency(fPre + [moved] + fPost), t);
    }
  }

  /** The list the moved chat leaves, with it filtered out, is the list a
      reload would show. */
  lemma RemovedSide(pre: seq<Chat>, c: Chat, moved: Chat, post: seq<Chat>, q: Chat -> bool, chatId: string)
    requires q(c) && !q(moved) && c.id == chatId
    requires forall x :: x in pre + post ==> x.id != chatId
    ensures Lists.Filter(SortByRecency(Lists.Filter(pre + [c] + post, q)), OtherThan(chatId))
         == SortByRecency(Lists.Filter(pre + [moved] + post, q))
  {
    var fPre := Lists.Filter(pre, q);
    var fPost := Lists.Filter(post, q);
    var other := OtherThan(chatId);
    assert Lists.Filter(fPre + [c] + fPost, other) == fPre + fPost by {
      FilterAround(fPre, c, fPost, other);
      Lists.FilterMembers(pre, q);
      Lists.FilterMembers(post, q);
      assert forall x :: x in fPre ==> x in pre + post;
      assert forall x :: x in fPost ==> x in pre + post;
      Lists.FilterAll(fPre, other);
      Lists.FilterAll(fPost, other);
    }
    calc {
      Lists.Filter(SortByRecency(Lists.Filter(pre + [c] + post, q)), other);
    == { FilterAround(pre, c, post, q); }
      Lists.Filter(SortByRecency(fPre + [c] + fPost), other);
    == { SortFilterCommute(fPre + [c] + fPost, other); }
      SortByRecency(fPre + fPost);
    == { FilterAround(pre, moved, post, q); }
      SortByRecency(Lists.Filter(pre + [moved] + post, q));
    }
  }

  /** The chats around the toggled one. */
  lemma ChatsAround(chats: seq<Chat>, k: int, chatId: string, p: bool, ts: int)
    requires UniqueIds(chats) && 0 <= k < |chats| && chats[k].id == chatId
    ensures chats == chats[..k] + [chats[k]] + chats[k + 1..]
    ensures Updated(chats, chatId, p, ts) == chats[..k] + [chats[k].(pinned := p, timestamp := ts)] + chats[k + 1..]
    ensures forall x :: x in chats[..k] + chats[k + 1..] ==> x.id != chatId
  {
    var pre := chats[..k];
    var post := chats[k + 1..];
    forall x: Chat | x in pre + post
      ensures x.id != chatId
    {
      var j :| 0 <= j < |pre + post| && (pre + post)[j] == x;
      if j < k {
        assert x == chats[j];
      } else {
        assert x == chats[j + 1];
      }
    }
  }

  /** After a successful toggle that flips the chat's flag and stamps it
      with a time later than every chat's, the pinned and recent lists
      updated in place are exactly the lists a reload would compute from
      the updated chats. */
  lemma ToggleMatchesReload(chats: seq<Chat>, chatId: string, p: bool, ts: int)
    requires UniqueIds(chats)
    requires FindChat(chats, chatId).Some? && FindChat(chats, chatId).value.pinned == !p
    requires forall c :: c in chats ==> c.timestamp < ts
    ensures var lists := PinnedAndRecentChats(chats);
            var after := AfterToggle(chats, lists.0, lists.1, chatId, Ok(Toggled(p, ts)));
            (after.1, after.2) == PinnedAndRecentChats(after.0)
  {
    var c := FindChat(chats, chatId).value;
    var k :| 0 <= k < |chats| && chats[k] == c;
    ChatsAround(chats, k, chatId, p, ts);
    var pre := chats[..k];
    var post := chats[k + 1..];
    forall x: Chat | x in pre + post
      ensures x.timestamp < ts
    {
      assert x in chats;
    }
    var lists := PinnedAndRecentChats(chats);
    ToggledFound(chats, lists.0, lists.1, chatId, c, p, ts);
    MovedLists(pre, c, post, chatId, p, ts);
  }

  /** A successful toggle of a chat that is found. */
  lemma ToggledFound(chats: seq<Chat>, pinned: seq<Chat>, recent: seq<Chat>, chatId: string, c: Chat, p: bool, ts: int)
    requires FindChat(chats, chatId) == Some(c)
    ensures var moved := c.(pinned := p, timestamp := ts);
            AfterToggle(chats, pinned, recent, chatId, Ok(Toggled(p, ts)))
            == (Updated(chats, chatId, p, ts),
                if p then SortByRecency(pinned + [moved]) else Lists.Filter(pinned, OtherThan(chatId)),
                if p then Lists.Filter(recent, OtherThan(chatId)) else SortByRecency(recent + [moved]))
  {
  }

  /** `ToggleMatchesReload` with the toggled chat and its neighbours named. */
  lemma MovedLists(pre: seq<Chat>, c: Chat, post: seq<Chat>, chatId: string, p: bool, ts: int)
    requires c.id == chatId && c.pinned == !p
    requires forall x :: x in pre + post ==> x.id != chatId && x.timestamp < ts
    ensures var lists := PinnedAndRecentChats(pre + [c] + post);
            var moved := c.(pinned := p, timestamp := ts);
            (if p then (SortByRecency(lists.0 + [moved]), Lists.Filter(lists.1, OtherThan(chatId)))
             else (Lists.Filter(lists.0, OtherThan(chatId)), SortByRecency(lists.1 + [moved])))
            == PinnedAndRecentChats(pre + [moved] + post)
  {
    var moved := c.(pinned := p, timestamp := ts);
    if p {
      AddedSide(pre, c, moved, post, IsPinned);
      RemovedSide(pre, c, moved, post, IsUnpinned, chatId);
    } else {
      AddedSide(pre, c, moved, post, IsUnpinned);
      RemovedSide(pre, c, moved, post, IsPinned, chatId);
    }
  }

  // ---------------------------------------------------------------------
  // The sidebar's state
  // ---------------------------------------------------------------------

  /** What `getUserChats` returns: the chats and an error message, if any. */
  datatype UserChats = UserChats(chats: seq<Chat>, error: Option<string>)

  const LoadFailedMessage := "Failed to load chats. Please try again later."

  /** A present, non-empty error message. */
  predicate Truthy(error: Option<string>)
  {
    error.Some? && error.value != ""
  }

  class Sidebar {
    var chats: seq<Chat>
    var isLoading: bool
    var pinnedChats: seq<Chat>
    var recentChats: seq<Chat>
    var updatingPinId: Option<string>
    var error: Option<string>

    constructor ()
      ensures chats == [] && pinnedChats == [] && recentChats == []
      ensures !isLoading && updatingPinId.None? && error.None?
    {
      chats := [];
      isLoading := false;
      pinnedChats := [];
      recentChats := [];
      updatingPinId := None;
      error := None;
    }

    /** The two lists are the split of the chats. */
    predicate Consistent()
      reads this
    {
      (pinnedChats, recentChats) == PinnedAndRecentChats(chats)
    }

    /** `loadChats`: with a signed-in user, the chats `getUserChats` returns
        and their split, or the load error with the lists kept; signed out,
        every list emptied; before the user is known, nothing. */
    method LoadChats(user: Option<string>, isLoaded: bool, reply: UserChats)
      modifies this
      ensures updatingPinId == old(updatingPinId)
      ensures user.Some? && isLoaded && Truthy(reply.error) ==>
        error == Some(LoadFailedMessage) && !isLoading
        && chats == old(chats) && pinnedChats == old(pinnedChats) && recentChats == old(recentChats)
      ensures user.Some? && isLoaded && !Truthy(reply.error) ==>
        chats == reply.chats && Consistent() && !isLoading && error == old(error)
      ensures user.None? && isLoaded ==>
        chats == [] && pinnedChats == [] && recentChats == [] && !isLoading && error == old(error)
      ensures !isLoaded ==>
        chats == old(chats) && pinnedChats == old(pinnedChats) && recentChats == old(recentChats)
        && isLoading == old(isLoading) && error == old(error)
    {
      if user.Some? && isLoaded {
        isLoading := true;
        var userChats := reply.chats;
        isLoading := false;
        if Truthy(reply.error) {
          error := Some(LoadFailedMessage);
          return;
        }
        chats := userChats;
        var lists := PinnedAndRecentChats(userChats);
        pinnedChats := lists.0;
        recentChats := lists.1;
      } else if isLoaded && user.None? {
        chats := [];
        pinnedChats := [];
        recentChats := [];
        isLoading := false;
      }
    }

    /** `handleTogglePin(chatId)`: marks the chat as updating, applies the
        toggle's outcome to the chats and both lists, and clears the mark on
        every path. */
    method HandleTogglePin(chatId: string, outcome: Result<ToggleResult, Thrown>)
      modifies this
      ensures updatingPinId.None?
      ensures (chats, pinnedChats, recentChats)
           == AfterToggle(old(chats), old(pinnedChats), old(recentChats), chatId, outcome)
      ensures !(outcome.Ok? && outcome.value.Toggled?) ==>
        chats == old(chats) && pinnedChats == old(pinnedChats) && recentChats == old(recentChats)
      ensures isLoading == old(isLoading) && error == old(error)
    {
      updatingPinId := Some(chatId);
      if outcome.Ok? && outcome.value.Toggled? {
        var p := outcome.value.pinned;
        var newTimestamp := outcome.value.newTimestamp;
        var updatedChat := FindChat(chats, chatId);
        var newChats := Updated(chats, chatId, p, newTimestamp);
        var newPinned, newRecent := pinnedChats, recentChats;
        if updatedChat.Some? {
          ToggledFound(chats, pinnedChats, recentChats, chatId, updatedChat.value, p, newTimestamp);
          var chatWithUpdatedPin := updatedChat.value.(pinned := p, timestamp := newTimestamp);
          if p {
            newPinned := SortByRecency(pinnedChats + [chatWithUpdatedPin]);
            newRecent := Lists.Filter(recentChats, OtherThan(chatId));
          } else {
            newRecent := SortByRecency(recentChats + [chatWithUpdatedPin]);
            newPinned := Lists.Filter(pinnedChats, OtherThan(chatId));
          }
        }
        chats, pinnedChats, recentChats := newChats, newPinned, newRecent;
      }
      updatingPinId := None;
    }
  }

  /** Loading and then toggling with a fresh timestamp leaves the sidebar as
      a reload of the updated chats would show it. */
  method LoadThenToggle(s: Sidebar, user: string, reply: UserChats, chatId: string, p: bool, ts: int)
    requires !Truthy(reply.error) && UniqueIds(reply.chats)
    requires FindChat(reply.chats, chatId).Some? && FindChat(reply.chats, chatId).value.pinned == !p
    requires forall c :: c in reply.chats ==> c.timestamp < ts
    modifies s
    ensures s.Consistent() && s.chats == Updated(reply.chats, chatId, p, ts)
    ensures s.updatingPinId.None?
  {
    s.LoadChats(Some(user), true, reply);
    s.HandleTogglePin(chatId, Ok(Toggled(p, ts)));
    ToggleMatchesReload(reply.chats, chatId, p, ts);
  }
}
