/** Cursor paging through a room's messages (src/modules/message/message.service.ts, `listMessages`). */
module MessagePaging {
  import opened Prelude

  datatype Message = Message(id: string, createdAt: int, deleted: bool)

  /** A room's messages from oldest to newest: creation times strictly ordered, ids unique. */
  ghost predicate History(h: seq<Message>) {
    forall i, j :: 0 <= i < j < |h| ==> h[i].createdAt < h[j].createdAt && h[i].id != h[j].id
  }

  function Visible(h: seq<Message>): seq<Message> {
    if h == [] then []
    else
      var n := |h| - 1;
      Visible(h[..n]) + if h[n].deleted then [] else [h[n]]
  }

  function Find(h: seq<Message>, id: string): (i: nat)
    ensures i <= |h|
    ensures i < |h| ==> h[i].id == id
    ensures forall j :: 0 <= j < i ==> h[j].id != id
  {
    if h == [] || h[0].id == id then 0 else 1 + Find(h[1..], id)
  }

  function Last(s: seq<Message>, n: nat): seq<Message> {
    if |s| <= n then s else s[|s| - n..]
  }

  /** The next `limit` of the rows that are not deleted, without the newest of them. */
  function SkippedPage(seen: seq<Message>, limit: nat): seq<Message> {
    var rows := Visible(seen);
    if rows == [] then [] else Last(rows[..|rows| - 1], limit)
  }

  /** The page after the cursor at place i. */
  function PageFrom(h: seq<Message>, limit: nat, i: nat): seq<Message>
    requires i < |h|
  {
    SkippedPage(h[..i + 1], limit)
  }

  /** The messages up to a moment. */
  function UpTo(h: seq<Message>, t: int): seq<Message> {
    if h == [] || h[|h| - 1].createdAt <= t then h else UpTo(h[..|h| - 1], t)
  }

  /** When the message was created, in this room or, by `others`, in another. */
  function CursorTime(h: seq<Message>, others: map<string, int>, id: string): Option<int> {
    var i := Find(h, id);
    if i < |h| then Some(h[i].createdAt) else if id in others then Some(others[id]) else None
  }

  /** The part of the history that a query looks at: up to the cursor's time, or nothing if it is unknown. */
  function Seen(h: seq<Message>, others: map<string, int>, cursor: Option<string>): seq<Message> {
    if cursor.None? then h
    else match CursorTime(h, others, cursor.value)
         case None => []
         case Some(t) => UpTo(h, t)
  }

  /** The rows of the query, oldest first. With a cursor the newest row that is not deleted is skipped. */
  function Page(h: seq<Message>, others: map<string, int>, limit: nat, cursor: Option<string>): seq<Message> {
    var seen := Seen(h, others, cursor);
    if cursor.None? then Last(Visible(seen), limit) else SkippedPage(seen, limit)
  }

  // Facts about visible messages.

  lemma {:induction false} VisibleComesFrom(h: seq<Message>, k: nat) returns (i: nat)
    requires k < |Visible(h)|
    ensures i < |h| && h[i] == Visible(h)[k] && !h[i].deleted && Visible(h[..i]) == Visible(h)[..k]
  {
    var n := |h| - 1;
    if k < |Visible(h[..n])| {
      i := VisibleComesFrom(h[..n], k);
      assert h[..n][..i] == h[..i];
    } else {
      i := n;
    }
  }

  lemma FindAt(h: seq<Message>, i: nat)
    requires History(h) && i < |h|
    ensures Find(h, h[i].id) == i
  {
    assert forall k :: 0 <= k < i ==> h[k].id != h[i].id;
  }

  lemma {:induction false} UpToPlace(h: seq<Message>, i: nat)
    requires History(h) && i < |h|
    ensures UpTo(h, h[i].createdAt) == h[..i + 1]
  {
    var n := |h| - 1;
    if i == n {
      assert h[..i + 1] == h;
    } else {
      UpToPlace(h[..n], i);
      assert h[..n][..i + 1] == h[..i + 1];
    }
  }

  lemma PageAtPlace(h: seq<Message>, others: map<string, int>, limit: nat, i: nat)
    requires History(h) && i < |h|
    ensures Page(h, others, limit, Some(h[i].id)) == PageFrom(h, limit, i)
  {
    FindAt(h, i);
    UpToPlace(h, i);
  }

  /**
   A page after a cursor is the run of visible messages right before it exactly when the cursor has not
   been deleted meanwhile, or nothing lies before it: after a deletion the message next to it is lost.
   */
  lemma PageContinuesIff(h: seq<Message>, others: map<string, int>, limit: nat, i: nat)
    requires History(h) && i < |h| && limit > 0
    ensures Page(h, others, limit, Some(h[i].id)) == Last(Visible(h[..i]), limit)
            <==> !h[i].deleted || Visible(h[..i]) == []
  {
    PageAtPlace(h, others, limit, i);
    if h[i].deleted {
      AfterDeletion(h, limit, i);
    } else {
      BeforeCursor(h, limit, i);
    }
  }

  lemma {:induction false} UpToIsPrefix(h: seq<Message>, t: int)
    ensures UpTo(h, t) <= h
    ensures History(h) ==> forall m :: m in UpTo(h, t) <==> m in h && m.createdAt <= t
  {
    if h == [] || h[|h| - 1].createdAt <= t {
    } else {
      var n := |h| - 1;
      UpToIsPrefix(h[..n], t);
      assert h == h[..n] + [h[n]];
    }
  }

  /**
   A cursor from another room places the page at its time, and the newest message up to that time is
   skipped: the page is the run of visible messages up to then only if there are none.
   */
  lemma ForeignCursorContinuesIff(h: seq<Message>, others: map<string, int>, limit: nat, id: string)
    requires History(h) && Find(h, id) == |h| && id in others && limit > 0
    ensures var seen := UpTo(h, others[id]);
            && (forall m :: m in seen <==> m in h && m.createdAt <= others[id])
            && (Page(h, others, limit, Some(id)) == Last(Visible(seen), limit) <==> Visible(seen) == [])
  {
    UpToIsPrefix(h, others[id]);
    SkippingContinuesIff(UpTo(h, others[id]), limit);
    ForeignPage(h, others, limit, id);
  }

  lemma SkippingContinuesIff(seen: seq<Message>, limit: nat)
    requires History(seen) && limit > 0
    ensures SkippedPage(seen, limit) == Last(Visible(seen), limit) <==> Visible(seen) == []
  {
    NewestIsDistinct(seen);
    ShorterByOne(Visible(seen), limit);
  }

  lemma ForeignPage(h: seq<Message>, others: map<string, int>, limit: nat, id: string)
    requires Find(h, id) == |h| && id in others
    ensures Page(h, others, limit, Some(id)) == SkippedPage(UpTo(h, others[id]), limit)
  {
  }

  lemma BeforeCursor(h: seq<Message>, limit: nat, i: nat)
    requires i < |h| && !h[i].deleted
    ensures PageFrom(h, limit, i) == Last(Visible(h[..i]), limit)
  {
    var before := Visible(h[..i]);
    assert Visible(h[..i + 1]) == before + [h[i]] by { assert h[..i + 1][..i] == h[..i]; }
    assert (before + [h[i]])[..|before|] == before;
  }

  lemma VisibleSkipsDeleted(h: seq<Message>, i: nat)
    requires i < |h| && h[i].deleted
    ensures Visible(h[..i + 1]) == Visible(h[..i])
  {
    assert h[..i + 1][..i] == h[..i];
  }

  lemma AfterDeletion(h: seq<Message>, limit: nat, i: nat)
    requires History(h) && i < |h| && limit > 0 && h[i].deleted
    ensures PageFrom(h, limit, i) == Last(Visible(h[..i]), limit) <==> Visible(h[..i]) == []
  {
    VisibleSkipsDeleted(h, i);
    NewestIsDistinct(h[..i]);
    ShorterByOne(Visible(h[..i]), limit);
  }

  /** The two newest visible messages differ. */
  lemma NewestIsDistinct(h: seq<Message>)
    requires History(h)
    ensures var v := Visible(h); |v| >= 2 ==> v[|v| - 2] != v[|v| - 1]
  {
    var n := |Visible(h)|;
    if n >= 2 {
      var m := VisibleComesFrom(h, n - 1);
      var m' := VisibleComesFrom(h, n - 2);
      if m' >= m {
        VisibleGrows(h, m, m');
      }
    }
  }

  lemma ShorterByOne(v: seq<Message>, limit: nat)
    requires limit > 0 && (|v| >= 2 ==> v[|v| - 2] != v[|v| - 1])
    ensures (if v == [] then [] else Last(v[..|v| - 1], limit)) == Last(v, limit) <==> v == []
  {
    if v != [] {
      var a, b := Last(v[..|v| - 1], limit), Last(v, limit);
      assert b[|b| - 1] == v[|v| - 1];
      if |v| >= 2 {
        assert a[|a| - 1] == v[|v| - 2];
      }
    }
  }

  lemma {:induction false} VisibleGrows(h: seq<Message>, i: nat, j: nat)
    requires i <= j <= |h|
    ensures |Visible(h[..i])| <= |Visible(h[..j])|
  {
    if i == j {
    } else {
      VisibleGrows(h, i, j - 1);
      assert h[..j][..j - 1] == h[..j - 1];
    }
  }

  /**
   A page is as long as the limit and the rows allow, and made of the newest rows there are: all up to the
   cursor's time that are not deleted, but for the newest of them.
   */
  lemma PageIsNewest(h: seq<Message>, others: map<string, int>, limit: nat, cursor: Option<string>)
    ensures var seen, page := Visible(Seen(h, others, cursor)), Page(h, others, limit, cursor);
            var rows := if cursor.None? || seen == [] then seen else seen[..|seen| - 1];
            |page| == (if |rows| < limit then |rows| else limit) && page == rows[|rows| - |page|..]
  {
  }

  // Following the cursor.

  /** Between two requests messages arrive at the end, and messages may be deleted. */
  ghost predicate Evolves(a: seq<Message>, b: seq<Message>) {
    && |a| <= |b|
    && forall i :: 0 <= i < |a| ==>
         b[i].id == a[i].id && b[i].createdAt == a[i].createdAt && (a[i].deleted ==> b[i].deleted)
  }

  /** The histories that successive requests see. */
  ghost predicate Histories(hs: seq<seq<Message>>) {
    && (forall i :: 0 <= i < |hs| ==> History(hs[i]))
    && forall i :: 0 <= i < |hs| - 1 ==> Evolves(hs[i], hs[i + 1])
  }

  /** The pages of a client that sends the oldest id of a page as the next cursor, until a page is empty. */
  function Pages(hs: seq<seq<Message>>, others: map<string, int>, limit: nat, cursor: Option<string>): seq<seq<Message>>
    decreases |hs|
  {
    if hs == [] then []
    else
      var page := Page(hs[0], others, limit, cursor);
      if page == [] then [] else [page] + Pages(hs[1..], others, limit, Some(page[0].id))
  }

  /** What the client has in the end, oldest first. */
  function Gathered(pages: seq<seq<Message>>): seq<Message> {
    if pages == [] then [] else Gathered(pages[1..]) + pages[0]
  }

  /** No message serves as a cursor after it was deleted. Others may be deleted at any time. */
  ghost predicate CursorsLive(hs: seq<seq<Message>>, others: map<string, int>, limit: nat, cursor: Option<string>)
    decreases |hs|
  {
    hs == [] ||
    (&& (cursor.Some? ==> var i := Find(hs[0], cursor.value); i < |hs[0]| && !hs[0][i].deleted)
     && var page := Page(hs[0], others, limit, cursor);
        page != [] ==> CursorsLive(hs[1..], others, limit, Some(page[0].id)))
  }

  /** The place in the history before which the next page ends. */
  ghost predicate PlaceOf(h: seq<Message>, cursor: Option<string>, c: nat) {
    match cursor
    case None => c == |h|
    case Some(id) => c < |h| && h[c].id == id
  }

  ghost predicate Increasing(s: seq<Message>) {
    forall i, j :: 0 <= i < j < |s| ==> s[i].createdAt < s[j].createdAt
  }

  lemma {:induction false} VisibleMembers(h: seq<Message>, m: Message)
    ensures m in Visible(h) <==> m in h && !m.deleted
  {
    if h == [] {
    } else {
      var n := |h| - 1;
      VisibleMembers(h[..n], m);
      assert h == h[..n] + [h[n]];
    }
  }

  lemma {:induction false} VisibleIncreases(h: seq<Message>)
    requires History(h)
    ensures Increasing(Visible(h))
  {
    if h == [] {
    } else {
      var n := |h| - 1;
      VisibleIncreases(h[..n]);
      forall m | m in Visible(h[..n]) ensures m.createdAt < h[n].createdAt {
        VisibleMembers(h[..n], m);
      }
    }
  }

  lemma {:induction false} VisibleShrinks(a: seq<Message>, b: seq<Message>, c: nat)
    requires Evolves(a, b) && c <= |a|
    ensures |Visible(b[..c])| <= |Visible(a[..c])|
  {
    if c == 0 {
    } else {
      VisibleShrinks(a, b, c - 1);
      assert a[..c][..c - 1] == a[..c - 1] && b[..c][..c - 1] == b[..c - 1];
    }
  }

  lemma {:induction false} EvolvesToLast(hs: seq<seq<Message>>)
    requires Histories(hs) && hs != []
    ensures Evolves(hs[0], hs[|hs| - 1])
  {
    if |hs| == 1 {
    } else {
      LaterRequests(hs);
      EvolvesToLast(hs[1..]);
    }
  }

  lemma LaterRequests(hs: seq<seq<Message>>)
    requires Histories(hs) && |hs| > 1
    ensures Histories(hs[1..]) && Evolves(hs[0], hs[1..][0])
  {
    forall j | 0 <= j < |hs[1..]| - 1 ensures Evolves(hs[1..][j], hs[1..][j + 1]) {
      assert Evolves(hs[j + 1], hs[j + 2]);
    }
  }

  lemma LivePage(h: seq<Message>, others: map<string, int>, limit: nat, cursor: Option<string>, c: nat)
    requires History(h) && limit > 0 && PlaceOf(h, cursor, c)
    requires cursor.Some? ==> var i := Find(h, cursor.value); i < |h| && !h[i].deleted
    ensures Page(h, others, limit, cursor) == Last(Visible(h[..c]), limit)
  {
    if cursor.None? {
      assert h[..c] == h;
    } else {
      FindAt(h, c);
      PageContinuesIff(h, others, limit, c);
    }
  }

  /** A page begins at a visible message; what is visible before that is still to come. */
  lemma PageStart(h: seq<Message>, limit: nat, c: nat) returns (first: nat)
    requires History(h) && limit > 0 && c <= |h| && Visible(h[..c]) != []
    ensures var page := Last(Visible(h[..c]), limit);
            && first < c && page != [] && h[first] == page[0] && !h[first].deleted
            && Visible(h[..c]) == Visible(h[..first]) + page
  {
    var v := Visible(h[..c]);
    var page := Last(v, limit);
    first := VisibleComesFrom(h[..c], |v| - |page|);
    assert h[..c][..first] == h[..first];
    assert v == v[..|v| - |page|] + page;
  }

  /** What a client has gathered from a place on, as far as the requests go. */
  ghost predicate Faithful(hs: seq<seq<Message>>, c: nat, pages: seq<seq<Message>>)
    requires hs != [] && c <= |hs[0]|
  {
    var got, last := Gathered(pages), hs[|hs| - 1];
    && |pages| <= |Visible(hs[0][..c])| && |pages| <= |hs|
    && (forall j, m :: 0 <= j < |pages| && m in pages[j] ==> m in Visible(hs[j]))
    && (forall m :: m in got ==> m in Visible(hs[0][..c]))
    && Increasing(got)
    && (|hs| > |Visible(hs[0][..c])| ==> forall i :: 0 <= i < c && i < |last| && !last[i].deleted ==> last[i] in got)
  }

  lemma NothingVisible(hs: seq<seq<Message>>, c: nat)
    requires Histories(hs) && hs != [] && c <= |hs[0]| && Visible(hs[0][..c]) == []
    ensures Faithful(hs, c, [])
  {
    EvolvesToLast(hs);
    forall i | 0 <= i < c ensures hs[0][i].deleted {
      VisibleMembers(hs[0][..c], hs[0][i]);
      assert hs[0][..c][i] == hs[0][i];
    }
  }

  lemma MessagesBelow(h: seq<Message>, first: nat, m: Message)
    requires History(h) && first < |h| && m in Visible(h[..first])
    ensures m.createdAt < h[first].createdAt
  {
    VisibleMembers(h[..first], m);
  }

  /** What was visible at a later request was visible already. */
  lemma VisibleBefore(a: seq<Message>, b: seq<Message>, c: nat, m: Message)
    requires Evolves(a, b) && c <= |a| && m in Visible(b[..c])
    ensures m in Visible(a[..c])
  {
    VisibleMembers(b[..c], m);
    VisibleMembers(a[..c], m);
    var i :| 0 <= i < c && b[i] == m;
    assert a[..c][i] == a[i] == b[i];
  }

  /** One more page in front of pages gathered faithfully from its first message on. */
  lemma OneMorePage(hs: seq<seq<Message>>, limit: nat, c: nat, first: nat, rest: seq<seq<Message>>)
    requires Histories(hs) && |hs| > 1 && limit > 0 && first < c <= |hs[0]|
    requires var page := Last(Visible(hs[0][..c]), limit);
             && page != [] && hs[0][first] == page[0] && !hs[0][first].deleted
             && Visible(hs[0][..c]) == Visible(hs[0][..first]) + page
    requires first <= |hs[1..][0]| && Faithful(hs[1..], first, rest)
    ensures Faithful(hs, c, [Last(Visible(hs[0][..c]), limit)] + rest)
  {
    var h, page := hs[0], Last(Visible(hs[0][..c]), limit);
    var pages, got := [page] + rest, Gathered(rest);
    LaterRequests(hs);
    VisibleShrinks(h, hs[1], first);
    assert pages[1..] == rest && Gathered(pages) == got + page;
    GatheredInOrder(h, hs[1], c, first, page, got);
    FetchedWhenVisible(hs, limit, c, rest);
    if |hs| > |Visible(h[..c])| {
      SurvivorsAreGathered(hs, hs[|hs| - 1], c, first, page, got);
    }
  }

  lemma GatheredInOrder(h: seq<Message>, later: seq<Message>, c: nat, first: nat, page: seq<Message>, got: seq<Message>)
    requires History(h) && Evolves(h, later) && first < c <= |h| && page != [] && page[0] == h[first]
    requires Visible(h[..c]) == Visible(h[..first]) + page
    requires Increasing(got) && forall m :: m in got ==> m in Visible(later[..first])
    ensures Increasing(got + page) && forall m :: m in got + page ==> m in Visible(h[..c])
  {
    forall m | m in got ensures m in Visible(h[..first]) && m.createdAt < h[first].createdAt {
      VisibleBefore(h, later, first, m);
      MessagesBelow(h, first, m);
    }
    VisibleIncreases(h[..c]);
    IncreasingSuffix(Visible(h[..first]), page);
    GatheringKeepsOrder(got, page);
  }

  lemma GatheringKeepsOrder(got: seq<Message>, page: seq<Message>)
    requires Increasing(got) && Increasing(page) && page != []
    requires forall m :: m in got ==> m.createdAt < page[0].createdAt
    ensures Increasing(got + page)
  {
  }

  lemma FetchedWhenVisible(hs: seq<seq<Message>>, limit: nat, c: nat, rest: seq<seq<Message>>)
    requires |hs| > 1 && c <= |hs[0]| && |rest| <= |hs| - 1
    requires forall j, m :: 0 <= j < |rest| && m in rest[j] ==> m in Visible(hs[1..][j])
    ensures var pages := [Last(Visible(hs[0][..c]), limit)] + rest;
            forall j, m :: 0 <= j < |pages| && m in pages[j] ==> m in Visible(hs[j])
  {
    var pages := [Last(Visible(hs[0][..c]), limit)] + rest;
    forall j, m | 0 <= j < |pages| && m in pages[j] ensures m in Visible(hs[j]) {
      if j == 0 {
        VisibleMembers(hs[0][..c], m);
        VisibleMembers(hs[0], m);
      } else {
        assert pages[j] == rest[j - 1] && hs[j] == hs[1..][j - 1];
      }
    }
  }

  lemma SurvivorsAreGathered(hs: seq<seq<Message>>, last: seq<Message>, c: nat, first: nat, page: seq<Message>,
                             got: seq<Message>)
    requires Histories(hs) && |hs| > 1 && first < c <= |hs[0]| && last == hs[|hs| - 1]
    requires Visible(hs[0][..c]) == Visible(hs[0][..first]) + page
    requires forall i :: 0 <= i < first && i < |last| && !last[i].deleted ==> last[i] in got
    ensures forall i :: 0 <= i < c && i < |last| && !last[i].deleted ==> last[i] in got + page
  {
    var h := hs[0];
    EvolvesToLast(hs);
    forall i | first <= i < c && !last[i].deleted ensures last[i] in page {
      assert h[i] == last[i] && h[..c][i] == h[i];
      VisibleMembers(h[..c], h[i]);
      if h[i] in Visible(h[..first]) {
        MessagesBelow(h, first, h[i]);
      }
    }
  }

  /** From any place on: induction over the requests. */
  lemma {:induction false} PagesAreFaithful(hs: seq<seq<Message>>, others: map<string, int>, limit: nat,
                                             cursor: Option<string>, c: nat)
    requires Histories(hs) && hs != [] && limit > 0
    requires PlaceOf(hs[0], cursor, c) && CursorsLive(hs, others, limit, cursor)
    ensures Faithful(hs, c, Pages(hs, others, limit, cursor))
    decreases |hs|
  {
    LivePage(hs[0], others, limit, cursor, c);
    var page := Last(Visible(hs[0][..c]), limit);
    if Visible(hs[0][..c]) == [] {
      NothingVisible(hs, c);
      assert Pages(hs, others, limit, cursor) == [];
    } else {
      var first := PageStart(hs[0], limit, c);
      var rest := Pages(hs[1..], others, limit, Some(page[0].id));
      assert Pages(hs, others, limit, cursor) == [page] + rest;
      if |hs| == 1 {
        assert [page] + rest == [page];
        LastRequest(hs, c, first, page);
      } else {
        LaterRequests(hs);
        PagesAreFaithful(hs[1..], others, limit, Some(page[0].id), first);
        OneMorePage(hs, limit, c, first, rest);
      }
    }
  }

  lemma LastRequest(hs: seq<seq<Message>>, c: nat, first: nat, page: seq<Message>)
    requires Histories(hs) && |hs| == 1 && first < c <= |hs[0]| && page != []
    requires Visible(hs[0][..c]) == Visible(hs[0][..first]) + page
    ensures Faithful(hs, c, [page])
  {
    var v := Visible(hs[0][..c]);
    assert Gathered([page]) == page by {
      assert [page][1..] == [] && Gathered([]) + page == page;
    }
    VisibleIncreases(hs[0][..c]);
    IncreasingSuffix(Visible(hs[0][..first]), page);
    forall m | m in page ensures m in v && m in Visible(hs[0]) {
      VisibleMembers(hs[0][..c], m);
      VisibleMembers(hs[0], m);
    }
  }

  lemma IncreasingSuffix(a: seq<Message>, b: seq<Message>)
    requires Increasing(a + b)
    ensures Increasing(b)
  {
    forall i, j | 0 <= i < j < |b| ensures b[i].createdAt < b[j].createdAt {
      assert (a + b)[|a| + i] == b[i] && (a + b)[|a| + j] == b[j];
    }
  }

  /**
   A client follows the cursor while messages arrive and messages are deleted, though none that still has
   to serve as a cursor. It stops after at most one request for each message and one more. It then has
   every message of its first request that was never deleted, none twice, in order, and each message it
   has was visible when it was fetched.
   */
  lemma FollowingTheCursor(hs: seq<seq<Message>>, others: map<string, int>, limit: nat)
    requires Histories(hs) && limit > 0 && hs != [] && |hs| > |Visible(hs[0])| && CursorsLive(hs, others, limit, None)
    ensures var pages, last := Pages(hs, others, limit, None), hs[|hs| - 1];
            && |pages| <= |Visible(hs[0])| && |hs[0]| <= |last|
            && (forall i :: 0 <= i < |hs[0]| && !last[i].deleted ==> last[i] in Gathered(pages))
            && Increasing(Gathered(pages))
            && (forall m :: m in Gathered(pages) ==> m in Visible(hs[0]))
            && (forall j, m :: 0 <= j < |pages| && m in pages[j] ==> m in Visible(hs[j]))
  {
    assert hs[0][..|hs[0]|] == hs[0];
    PagesAreFaithful(hs, others, limit, None, |hs[0]|);
    EvolvesToLast(hs);
  }

  // When nothing is deleted at all.

  ghost predicate Growing(hs: seq<seq<Message>>) {
    && (forall i :: 0 <= i < |hs| ==> History(hs[i]))
    && (forall i :: 0 <= i < |hs| - 1 ==> hs[i] <= hs[i + 1])
  }

  lemma {:induction false} GrowingToLast(hs: seq<seq<Message>>)
    requires Growing(hs) && hs != []
    ensures Histories(hs) && hs[0] <= hs[|hs| - 1]
  {
    if |hs| == 1 {
    } else {
      GrowingTail(hs);
      GrowingToLast(hs[1..]);
    }
  }

  lemma GrowingTail(hs: seq<seq<Message>>)
    requires Growing(hs) && |hs| > 1
    ensures Growing(hs[1..]) && hs[0] <= hs[1..][0]
  {
    forall j | 0 <= j < |hs[1..]| - 1 ensures hs[1..][j] <= hs[1..][j + 1] {
      assert hs[j + 1] <= hs[j + 2];
    }
    assert hs[0] <= hs[1];
  }

  lemma {:induction false} GrowingCursorsLive(hs: seq<seq<Message>>, others: map<string, int>, limit: nat,
                                               cursor: Option<string>, c: nat)
    requires Growing(hs) && limit > 0
    requires hs != [] ==> PlaceOf(hs[0], cursor, c) && (cursor.Some? ==> !hs[0][c].deleted)
    ensures CursorsLive(hs, others, limit, cursor)
    decreases |hs|
  {
    if hs == [] {
    } else {
      if cursor.Some? {
        FindAt(hs[0], c);
      }
      LivePage(hs[0], others, limit, cursor, c);
      if Page(hs[0], others, limit, cursor) != [] {
        var first := PageStart(hs[0], limit, c);
        if |hs| > 1 {
          GrowingTail(hs);
        }
        GrowingCursorsLive(hs[1..], others, limit, Some(hs[0][first].id), first);
      }
    }
  }

  function WithoutNewest(s: seq<Message>): seq<Message>
    requires s != []
  {
    s[..|s| - 1]
  }

  lemma BelowNewest(s: seq<Message>, m: Message)
    requires Increasing(s) && s != []
    ensures m in WithoutNewest(s) <==> m in s && m.createdAt < s[|s| - 1].createdAt
  {
    assert s == WithoutNewest(s) + [s[|s| - 1]];
  }

  lemma NewestAgree(a: seq<Message>, b: seq<Message>)
    requires Increasing(a) && Increasing(b) && a != [] && b != [] && forall m :: m in a <==> m in b
    ensures a[|a| - 1] == b[|b| - 1]
    ensures forall m :: m in WithoutNewest(a) <==> m in WithoutNewest(b)
  {
    var x, y := a[|a| - 1], b[|b| - 1];
    assert x in b && y in a;
    forall m ensures m in WithoutNewest(a) <==> m in WithoutNewest(b) {
      BelowNewest(a, m);
      BelowNewest(b, m);
    }
  }

  lemma {:induction false} SameMessagesSameOrder(a: seq<Message>, b: seq<Message>)
    requires Increasing(a) && Increasing(b) && forall m :: m in a <==> m in b
    ensures a == b
  {
    assert (a != [] ==> a[0] in b) && (b != [] ==> b[0] in a);
    if a == [] {
    } else {
      NewestAgree(a, b);
      SameMessagesSameOrder(WithoutNewest(a), WithoutNewest(b));
      assert a == WithoutNewest(a) + [a[|a| - 1]] && b == WithoutNewest(b) + [b[|b| - 1]];
    }
  }

  /** Without deletions the client ends up with exactly the messages that were there at its first request. */
  lemma FollowingTheCursorRebuildsHistory(hs: seq<seq<Message>>, others: map<string, int>, limit: nat)
    requires Growing(hs) && limit > 0 && hs != [] && |hs| > |Visible(hs[0])|
    ensures Gathered(Pages(hs, others, limit, None)) == Visible(hs[0])
  {
    var h := hs[0];
    GrowingToLast(hs);
    GrowingCursorsLive(hs, others, limit, None, |h|);
    FollowingTheCursor(hs, others, limit);
    VisibleIncreases(h);
    forall m ensures m in Visible(h) <==> m in Gathered(Pages(hs, others, limit, None)) {
      VisibleMembers(h, m);
      if m in Visible(h) {
        var i :| 0 <= i < |h| && h[i] == m;
        assert hs[|hs| - 1][i] == m;
      }
    }
    SameMessagesSameOrder(Gathered(Pages(hs, others, limit, None)), Visible(h));
  }

  // The query and the method.

  function Reversed(s: seq<Message>): seq<Message> {
    if s == [] then [] else Reversed(s[1..]) + [s[0]]
  }

  lemma {:induction false} ReversedAt(s: seq<Message>, k: nat)
    requires k < |s|
    ensures |Reversed(s)| == |s| && Reversed(s)[k] == s[|s| - 1 - k]
  {
    if |s| <= 1 {
    } else {
      ReversedAt(s[1..], if k < |s| - 1 then k else 0);
    }
  }

  ghost predicate Mirror(s: seq<Message>, t: seq<Message>) {
    |s| == |t| && forall k :: 0 <= k < |s| ==> t[k] == s[|s| - 1 - k]
  }

  lemma MirrorIsReversed(s: seq<Message>, t: seq<Message>)
    requires Mirror(s, t)
    ensures t == Reversed(s)
  {
    if s != [] {
      ReversedAt(s, 0);
      forall k: nat | k < |s| ensures t[k] == Reversed(s)[k] {
        ReversedAt(s, k);
      }
    }
  }

  /** The rows that are not deleted, newest first. */
  function NewestFirst(h: seq<Message>): seq<Message> {
    if h == [] then []
    else
      var n := |h| - 1;
      (if h[n].deleted then [] else [h[n]]) + NewestFirst(h[..n])
  }

  function Take(s: seq<Message>, n: nat): seq<Message> {
    if |s| <= n then s else s[..n]
  }

  /** What the database returns: newest first, with a cursor without the first row, at most `limit` rows. */
  function Query(h: seq<Message>, others: map<string, int>, limit: nat, cursor: Option<string>): seq<Message> {
    var rows := NewestFirst(Seen(h, others, cursor));
    if cursor.None? then Take(rows, limit)
    else if rows == [] then []
    else Take(rows[1..], limit)
  }

  lemma {:induction false} NewestFirstAt(h: seq<Message>)
    ensures Mirror(NewestFirst(h), Visible(h))
  {
    if h == [] {
    } else {
      NewestFirstAt(h[..|h| - 1]);
    }
  }

  lemma TakenIsLast(rows: seq<Message>, v: seq<Message>, limit: nat)
    requires Mirror(rows, v)
    ensures Mirror(Take(rows, limit), Last(v, limit))
  {
    if |v| > limit {
      var t, l := Take(rows, limit), Last(v, limit);
      forall k | 0 <= k < limit ensures l[k] == t[limit - 1 - k] {
        assert l[k] == v[|v| - limit + k] && t[limit - 1 - k] == rows[limit - 1 - k];
      }
    }
  }

  lemma WithoutFirstRow(rows: seq<Message>, v: seq<Message>)
    requires Mirror(rows, v) && rows != []
    ensures Mirror(rows[1..], v[..|v| - 1])
  {
    var older, shorter := rows[1..], v[..|v| - 1];
    forall k | 0 <= k < |shorter| ensures shorter[k] == older[|shorter| - 1 - k] {
      assert v[k] == rows[|v| - 1 - k];
    }
  }

  /** Turned round, the rows of the query are the page. */
  lemma QueryIsPageReversed(h: seq<Message>, others: map<string, int>, limit: nat, cursor: Option<string>)
    ensures Reversed(Query(h, others, limit, cursor)) == Page(h, others, limit, cursor)
  {
    var seen := Seen(h, others, cursor);
    NewestFirstAt(seen);
    var rows, v := NewestFirst(seen), Visible(seen);
    if cursor.None? {
      TakenIsLast(rows, v, limit);
    } else if rows != [] {
      WithoutFirstRow(rows, v);
      TakenIsLast(rows[1..], v[..|v| - 1], limit);
      assert Query(h, others, limit, cursor) == Take(rows[1..], limit);
      assert Page(h, others, limit, cursor) == Last(v[..|v| - 1], limit);
    }
    MirrorIsReversed(Query(h, others, limit, cursor), Page(h, others, limit, cursor));
  }

  /** Fetches the rows newest first and turns them round in place. */
  method ListMessages(history: seq<Message>, others: map<string, int>, isMember: bool, limit: nat,
                      cursor: Option<string>)
    returns (messages: array?<Message>)
    ensures messages == null <==> !isMember
    ensures isMember ==> fresh(messages) && messages[..] == Page(history, others, limit, cursor)
  {
    if !isMember {
      return null;
    }
    var rows := Query(history, others, limit, cursor);
    messages := new Message[|rows|](i requires 0 <= i < |rows| => rows[i]);
    assert messages[..] == rows;
    ReverseInPlace(messages);
    QueryIsPageReversed(history, others, limit, cursor);
  }

  method ReverseInPlace(a: array<Message>)
    modifies a
    ensures a[..] == Reversed(old(a[..]))
  {
    var n, i := a.Length, 0;
    while i < n / 2
      invariant 0 <= i <= n / 2
      invariant forall k :: 0 <= k < i ==> a[k] == old(a[n - 1 - k]) && a[n - 1 - k] == old(a[k])
      invariant forall k :: i <= k < n - i ==> a[k] == old(a[k])
    {
      a[i], a[n - 1 - i] := a[n - 1 - i], a[i];
      i := i + 1;
    }
    MirrorIsReversed(old(a[..]), a[..]);
  }
}
