/**
 * `pagePool` of src/api/chat.js: a LIFO cache of at most three idle browser
 * tabs. A page is modelled by the serial number it was created with; a
 * page that is closed is moved to `closed`, so that no page is ever lost
 * from view.
 */
module PagePool {
  import opened Util

  const MaxSize: nat := 3

  datatype Page = Page(serial: nat)

  /** The pool as a value: the idle stack (top at the end), the pages
   *  closed so far and the number of pages ever opened. */
  datatype PoolState = PoolState(idle: seq<Page>, closed: seq<Page>, created: nat) {

    /** getPage: pop the most recent idle page, or open a new one. A new
     *  page is also where a missing credential is read from local storage:
     *  `stored` is what `localStorage.getItem('token')` yields (`None` when
     *  that read throws, which keeps the current value). */
    function Get(authToken: string, stored: Option<string>): (Page, PoolState, string) {
      if idle != [] then (idle[|idle| - 1], this.(idle := idle[..|idle| - 1]), authToken)
      else
        var token := if authToken != [] then authToken
                     else match stored case None => authToken case Some(t) => t;
        (Page(created), this.(created := created + 1), token)
    }

    /** releasePage: keep the page while below capacity, else close it. */
    function Release(p: Page): PoolState {
      if |idle| < MaxSize then this.(idle := idle + [p]) else this.(closed := closed + [p])
    }

    /** clear: close every idle page, in order, and empty the stack. */
    function Clear(): PoolState {
      this.(idle := [], closed := closed + idle)
    }

    /** The `finally` clause of sendMessage: a page still held when an
     *  exception escapes is closed rather than returned to the pool. */
    function Discard(p: Page): PoolState {
      this.(closed := closed + [p])
    }
  }

  predicate Bounded(s: PoolState) { |s.idle| <= MaxSize }

  /** The capacity bound holds after every operation. */
  lemma BoundPreserved(s: PoolState, p: Page, authToken: string, stored: Option<string>)
    requires Bounded(s)
    ensures Bounded(s.Release(p))
    ensures Bounded(s.Get(authToken, stored).1)
    ensures Bounded(s.Clear()) && Bounded(s.Discard(p))
  {
  }

  /** getPage reuses the most recently released page when there is one and
   *  opens a page only when the stack is empty; only a new page reads the
   *  credential, and only when none is held. */
  lemma GetSpec(s: PoolState, authToken: string, stored: Option<string>)
    ensures var (p, s', t) := s.Get(authToken, stored);
            && (s.idle != [] ==> p == s.idle[|s.idle| - 1] && s'.idle + [p] == s.idle
                                 && s'.created == s.created && t == authToken)
            && (s.idle == [] ==> p == Page(s.created) && s'.created == s.created + 1 && s'.idle == [])
            && s'.closed == s.closed
            && (authToken != [] ==> t == authToken)
  {
    if s.idle != [] {
      var (p, s', t) := s.Get(authToken, stored);
      assert s.idle == s.idle[..|s.idle| - 1] + [s.idle[|s.idle| - 1]];
    }
  }

  /** Last in, first out: a page released below capacity is the one the
   *  next getPage hands out, and the pool is back where it was. */
  lemma ReleaseThenGet(s: PoolState, p: Page, authToken: string, stored: Option<string>)
    requires |s.idle| < MaxSize
    ensures s.Release(p).Get(authToken, stored) == (p, s, authToken)
  {
    assert (s.idle + [p])[..|s.idle|] == s.idle;
  }

  /** A release at capacity closes the page and leaves the stack alone. */
  lemma ReleaseAtCapacity(s: PoolState, p: Page)
    requires |s.idle| >= MaxSize
    ensures s.Release(p).idle == s.idle && s.Release(p).closed == s.closed + [p]
  {
  }

  /** No page is lost: releasing, clearing and discarding only move pages
   *  between the stack and the closed list. */
  lemma PagesKept(s: PoolState, p: Page)
    ensures multiset(s.Release(p).idle + s.Release(p).closed) == multiset(s.idle + s.closed) + multiset{p}
    ensures multiset(s.Clear().idle + s.Clear().closed) == multiset(s.idle + s.closed)
    ensures s.Clear().idle == []
  {
    assert s.Clear().idle + s.Clear().closed == s.closed + s.idle;
  }

  class PagePool {
    var idle: seq<Page>
    var closed: seq<Page>
    var created: nat

    ghost predicate Valid() reads this { |idle| <= MaxSize }

    function State(): PoolState reads this { PoolState(idle, closed, created) }

    constructor ()
      ensures Valid() && State() == PoolState([], [], 0)
    {
      idle := [];
      closed := [];
      created := 0;
    }

    method GetPage(authToken: string, stored: Option<string>) returns (page: Page, token: string)
      modifies this
      ensures (page, State(), token) == old(State()).Get(authToken, stored)
      ensures old(Valid()) ==> Valid()
    {
      token := authToken;
      if |idle| > 0 {
        page := idle[|idle| - 1];
        idle := idle[..|idle| - 1];
        return;
      }
      page := Page(created);
      created := created + 1;
      if token == [] {
        match stored
        case None =>
        case Some(t) => token := t;
      }
    }

    method ReleasePage(page: Page)
      modifies this
      ensures State() == old(State()).Release(page)
      ensures old(Valid()) ==> Valid()
    {
      if |idle| < MaxSize {
        idle := idle + [page];
      } else {
        closed := closed + [page];
      }
    }

    method Clear()
      modifies this
      ensures State() == old(State()).Clear()
      ensures Valid()
    {
      var i := 0;
      while i < |idle|
        invariant 0 <= i <= |idle|
        invariant idle == old(idle) && created == old(created)
        invariant closed == old(closed) + idle[..i]
      {
        closed := closed + [idle[i]];
        i := i + 1;
      }
      assert idle[..i] == idle;
      idle := [];
    }

    method Discard(page: Page)
      modifies this
      ensures State() == old(State()).Discard(page)
      ensures old(Valid()) ==> Valid()
    {
      closed := closed + [page];
    }
  }
}
