/**
 * The per-window bookkeeping of the rendering manager, as values.
 *
 * The manager keeps its windows in an ordered map keyed by the window's
 * address; every walk over the windows (the update callback, the *All
 * requests, the pending-request check) therefore visits them in increasing
 * address order, whatever order they were registered in. This module gives
 * that order a name (a strictly sorted key sequence), and the filters and
 * counts the manager's contracts are stated with.
 */
module RenderWindows {

  /** A render window, identified by its address. */
  type Window = int

  /** State of a registered window. Inactive is also what a lookup of an
      unknown window inserts, the value-initialised enumerator. */
  datatype RenderingState = Inactive | Requested | InProgress

  /** Which windows a request for all windows touches. */
  datatype RequestType = UpdateAll | Update2DWindows | Update3DWindows

  /** Mapper IDs reported by a window's renderer. */
  const Mapper2D: int := 1
  const Mapper3D: int := 2

  /** Does a window whose renderer reports `mapperId` fall under `requestType`? */
  predicate Matches(requestType: RequestType, mapperId: int)
  {
    || requestType == UpdateAll
    || (requestType == Update2DWindows && mapperId == Mapper2D)
    || (requestType == Update3DWindows && mapperId == Mapper3D)
  }

  /** Does some window of `m` have state `st`? */
  predicate AnyInState(m: map<Window, RenderingState>, st: RenderingState)
  {
    exists k :: k in m && m[k] == st
  }

  /** The keys of an ordered map, in the order its iterators visit them. */
  predicate StrictlySorted(keys: seq<Window>)
  {
    forall i, j :: 0 <= i < j < |keys| ==> keys[i] < keys[j]
  }

  lemma PrependSorted(x: Window, s: seq<Window>)
    requires StrictlySorted(s)
    requires forall y :: y in s ==> x < y
    ensures StrictlySorted([x] + s)
  {
    forall i, j | 0 <= i < j < |[x] + s|
      ensures ([x] + s)[i] < ([x] + s)[j]
    {
      assert ([x] + s)[j] == s[j - 1] && s[j - 1] in s;
      if i > 0 {
        assert ([x] + s)[i] == s[i - 1];
      }
    }
  }

  lemma AppendSorted(s: seq<Window>, x: Window)
    requires StrictlySorted(s)
    requires forall y :: y in s ==> y < x
    ensures StrictlySorted(s + [x])
  {
    forall i, j | 0 <= i < j < |s + [x]|
      ensures (s + [x])[i] < (s + [x])[j]
    {
      assert (s + [x])[i] == s[i] && s[i] in s;
      if j < |s| {
        assert (s + [x])[j] == s[j];
      }
    }
  }

  lemma HeadBelowTail(keys: seq<Window>)
    requires StrictlySorted(keys) && keys != []
    ensures StrictlySorted(keys[1..])
    ensures forall y :: y in keys[1..] ==> keys[0] < y
  {
    forall y | y in keys[1..]
      ensures keys[0] < y
    {
      var i :| 0 <= i < |keys[1..]| && keys[1..][i] == y;
      assert keys[i + 1] == y;
    }
  }

  /** Appending to a log one piece at a time; an extensionality hint for
      the solver, which does not regroup concatenations by itself. */
  lemma AppendAssoc<T>(a: seq<T>, b: seq<T>, c: seq<T>)
    ensures (a + b) + c == a + (b + c)
  {
  }

  /** Adding to a set one piece at a time; an extensionality hint for the
      solver, which does not regroup unions by itself. */
  lemma UnionAssoc<T>(a: set<T>, b: set<T>, c: set<T>)
    ensures (a + b) + c == a + (b + c)
  {
  }

  /** Walking a key order one step further extends the visited prefix by
      the next key; an extensionality hint for the loops over the order. */
  lemma PrefixStep(keys: seq<Window>, i: int)
    requires 0 <= i < |keys|
    ensures keys[..i + 1] == keys[..i] + [keys[i]]
    ensures keys[..i + 1][..i] == keys[..i]
  {
  }

  /** Strictly increasing, stated one neighbouring pair at a time. Being
      recursive, it is unfolded only as far as a proof asks, which keeps the
      manager's invariant cheap in proofs that do not look at the order. */
  predicate Increasing(keys: seq<Window>)
  {
    |keys| < 2 || (Increasing(keys[..|keys| - 1]) && keys[|keys| - 2] < keys[|keys| - 1])
  }

  /** The neighbour-wise and the pairwise statement of sortedness agree. */
  lemma {:induction false} IncreasingIsSorted(keys: seq<Window>)
    ensures Increasing(keys) <==> StrictlySorted(keys)
  {
    if |keys| >= 2 {
      var init := keys[..|keys| - 1];
      IncreasingIsSorted(init);
      if Increasing(keys) {
        forall i, j | 0 <= i < j < |keys|
          ensures keys[i] < keys[j]
        {
          if j < |keys| - 1 {
            assert init[i] < init[j];
          } else if i < |keys| - 2 {
            assert init[i] < init[|keys| - 2];
          }
        }
      }
      if StrictlySorted(keys) {
        forall i, j | 0 <= i < j < |init|
          ensures init[i] < init[j]
        {
          assert keys[i] < keys[j];
        }
      }
    }
  }

  /** In a strictly sorted key order, the next key has not been visited yet. */
  lemma NextUnvisited(keys: seq<Window>, i: int)
    requires Increasing(keys) && 0 <= i < |keys|
    ensures keys[i] !in keys[..i]
  {
    IncreasingIsSorted(keys);
    forall m | 0 <= m < i
      ensures keys[..i][m] != keys[i]
    {
      assert keys[m] < keys[i];
    }
  }

  /** `keys` is the visiting order of map `m`. */
  ghost predicate KeyOrderOf(keys: seq<Window>, m: map<Window, RenderingState>)
  {
    Increasing(keys) && forall k :: k in keys <==> k in m
  }

  /** Some window is in state `st` exactly when the walk in visiting order
      meets one. */
  lemma AnyInStateByIndex(keys: seq<Window>, m: map<Window, RenderingState>, st: RenderingState)
    requires KeyOrderOf(keys, m)
    ensures forall j :: 0 <= j < |keys| ==> keys[j] in m
    ensures AnyInState(m, st) <==> exists j :: 0 <= j < |keys| && m[keys[j]] == st
  {
    KeysInMap(keys, m);
    assert forall k :: k in keys <==> k in m;
    if AnyInState(m, st) {
      var k :| k in m && m[k] == st;
      var j :| 0 <= j < |keys| && keys[j] == k;
    }
    if exists j :: 0 <= j < |keys| && m[keys[j]] == st {
      var j :| 0 <= j < |keys| && m[keys[j]] == st;
      var k := keys[j];
      assert k in m && m[k] == st;
    }
  }

  /** Every position of the visiting order holds a key of the map. */
  lemma KeysInMap(keys: seq<Window>, m: map<Window, RenderingState>)
    requires KeyOrderOf(keys, m)
    ensures forall j :: 0 <= j < |keys| ==> keys[j] in m
  {
    assert forall k :: k in keys <==> k in m;
    forall j | 0 <= j < |keys|
      ensures keys[j] in m
    {
      assert keys[j] in keys;
    }
  }

  /** The key order after inserting `w` into the map. */
  function InsertKey(keys: seq<Window>, w: Window): seq<Window>
  {
    if keys == [] then [w]
    else if w < keys[0] then [w] + keys
    else if w == keys[0] then keys
    else [keys[0]] + InsertKey(keys[1..], w)
  }

  /** Insertion keeps the order strictly sorted and adds exactly `w`; an
      order that already holds `w` is left as it is. */
  lemma {:induction false} InsertKeySorted(keys: seq<Window>, w: Window)
    requires StrictlySorted(keys)
    ensures StrictlySorted(InsertKey(keys, w))
    ensures forall k :: k in InsertKey(keys, w) <==> k in keys || k == w
    ensures w in keys ==> InsertKey(keys, w) == keys
  {
    if keys != [] {
      HeadBelowTail(keys);
      assert keys == [keys[0]] + keys[1..];
      if w < keys[0] {
        PrependSorted(w, keys);
      } else if w > keys[0] {
        InsertKeySorted(keys[1..], w);
        PrependSorted(keys[0], InsertKey(keys[1..], w));
      }
    }
  }

  /** The key order after erasing `w` from the map. */
  function EraseKey(keys: seq<Window>, w: Window): seq<Window>
  {
    if keys == [] then []
    else if keys[0] == w then keys[1..]
    else [keys[0]] + EraseKey(keys[1..], w)
  }

  /** Erasure keeps the order strictly sorted and removes exactly `w`; an
      order without `w` is left as it is. */
  lemma {:induction false} EraseKeySorted(keys: seq<Window>, w: Window)
    requires StrictlySorted(keys)
    ensures StrictlySorted(EraseKey(keys, w))
    ensures forall k :: k in EraseKey(keys, w) <==> k in keys && k != w
    ensures w !in keys ==> EraseKey(keys, w) == keys
  {
    if keys != [] {
      HeadBelowTail(keys);
      assert keys == [keys[0]] + keys[1..];
      if keys[0] != w {
        EraseKeySorted(keys[1..], w);
        PrependSorted(keys[0], EraseKey(keys[1..], w));
      }
    }
  }

  /** Storing a state under `w` keeps `keys` the visiting order of the map;
      a key already present does not move the order. */
  lemma InsertKeyOrder(keys: seq<Window>, m: map<Window, RenderingState>, w: Window, st: RenderingState)
    requires KeyOrderOf(keys, m)
    ensures KeyOrderOf(InsertKey(keys, w), m[w := st])
    ensures w in m ==> InsertKey(keys, w) == keys
  {
    IncreasingIsSorted(keys);
    InsertKeySorted(keys, w);
    IncreasingIsSorted(InsertKey(keys, w));
  }

  /** Erasing `w` keeps the erased order the visiting order of the map. */
  lemma EraseKeyOrder(keys: seq<Window>, m: map<Window, RenderingState>, w: Window)
    requires KeyOrderOf(keys, m)
    ensures KeyOrderOf(EraseKey(keys, w), m - {w})
    ensures w !in m ==> EraseKey(keys, w) == keys
  {
    IncreasingIsSorted(keys);
    EraseKeySorted(keys, w);
    IncreasingIsSorted(EraseKey(keys, w));
  }

  /** A second store under the same key overwrites the first; an
      extensionality hint for map updates. */
  lemma StoreOverwrites(m: map<Window, RenderingState>, w: Window, a: RenderingState, b: RenderingState)
    ensures m[w := a][w := b] == m[w := b]
  {
  }

  /** Storing another state under `w` creates no window in state `st`. */
  lemma AnyInStateAfterStore(m: map<Window, RenderingState>, w: Window, s: RenderingState, st: RenderingState)
    requires s != st
    ensures AnyInState(m[w := s], st) ==> AnyInState(m, st)
  {
    if AnyInState(m[w := s], st) {
      var k :| k in m[w := s] && m[w := s][k] == st;
      assert k != w && k in m;
    }
  }

  /** Erasing a window creates no window in state `st`. */
  lemma AnyInStateAfterErase(m: map<Window, RenderingState>, w: Window, st: RenderingState)
    ensures AnyInState(m - {w}, st) ==> AnyInState(m, st)
  {
    if AnyInState(m - {w}, st) {
      var k :| k in m - {w} && (m - {w})[k] == st;
      assert k in m;
    }
  }

  /** The first element is a member; a hint that names `s[0] in s` as a
      term the solver can use. */
  lemma HeadIsMember(s: seq<Window>)
    ensures s != [] ==> s[0] in s
  {
  }

  /** A set of keys has exactly one visiting order: two strictly sorted
      sequences with the same elements are equal. */
  lemma {:induction false} SortedKeysUnique(a: seq<Window>, b: seq<Window>)
    requires StrictlySorted(a) && StrictlySorted(b)
    requires forall k :: k in a <==> k in b
    ensures a == b
  {
    HeadIsMember(a);
    HeadIsMember(b);
    if a == [] && b == [] {
    } else if a == [] {
      assert false;
    } else if b == [] {
      assert false;
    } else {
      assert a[0] in a && b[0] in b;
      assert a[0] in b;
      assert b[0] in a;
      assert a[0] == b[0] by {
        var i :| 0 <= i < |b| && b[i] == a[0];
        var j :| 0 <= j < |a| && a[j] == b[0];
        assert b[0] <= b[i];
        assert a[0] <= a[j];
      }
      forall k
        ensures k in a[1..] <==> k in b[1..]
      {
        if k in a[1..] {
          var i :| 1 <= i < |a| && a[i] == k;
          assert k in b && k != b[0];
          var j :| 0 <= j < |b| && b[j] == k;
          assert j != 0;
          assert b[1..][j - 1] == k;
        }
        if k in b[1..] {
          var j :| 1 <= j < |b| && b[j] == k;
          assert k in a && k != a[0];
          var i :| 0 <= i < |a| && a[i] == k;
          assert i != 0;
          assert a[1..][i - 1] == k;
        }
      }
      SortedKeysUnique(a[1..], b[1..]);
    }
  }

  /** The windows of `keys`, in that order, whose state in `m` is `st`
      (a key missing from `m` has no state and is skipped). */
  function WindowsInState(keys: seq<Window>, m: map<Window, RenderingState>, st: RenderingState): seq<Window>
  {
    if keys == [] then []
    else
      var last := keys[|keys| - 1];
      WindowsInState(keys[..|keys| - 1], m, st) + (if last in m && m[last] == st then [last] else [])
  }

  /** The windows of `keys`, in that order, that `requestType` selects. */
  function WindowsMatching(keys: seq<Window>, requestType: RequestType, mapperId: Window -> int): seq<Window>
  {
    if keys == [] then []
    else
      var last := keys[|keys| - 1];
      WindowsMatching(keys[..|keys| - 1], requestType, mapperId) + (if Matches(requestType, mapperId(last)) then [last] else [])
  }

  /** The filter keeps exactly the windows of `keys` in state `st`. */
  lemma {:induction false} WindowsInStateMembers(keys: seq<Window>, m: map<Window, RenderingState>, st: RenderingState)
    ensures forall k :: k in WindowsInState(keys, m, st) <==> k in keys && k in m && m[k] == st
  {
    if keys != [] {
      var init := keys[..|keys| - 1];
      WindowsInStateMembers(init, m, st);
      assert keys == init + [keys[|keys| - 1]];
    }
  }

  /** The filter keeps exactly the windows of `keys` the request type selects. */
  lemma {:induction false} WindowsMatchingMembers(keys: seq<Window>, requestType: RequestType, mapperId: Window -> int)
    ensures forall k :: k in WindowsMatching(keys, requestType, mapperId) <==> k in keys && Matches(requestType, mapperId(k))
  {
    if keys != [] {
      var init := keys[..|keys| - 1];
      WindowsMatchingMembers(init, requestType, mapperId);
      assert keys == init + [keys[|keys| - 1]];
    }
  }

  /** Over the visiting order of `m`, the filter for `st` finds a window
      exactly when some window of `m` is in state `st`. */
  lemma AnyInStateByFilter(keys: seq<Window>, m: map<Window, RenderingState>, st: RenderingState)
    requires KeyOrderOf(keys, m)
    ensures AnyInState(m, st) <==> WindowsInState(keys, m, st) != []
  {
    WindowsInStateMembers(keys, m, st);
    assert forall k :: k in keys <==> k in m;
    if AnyInState(m, st) {
      var k :| k in m && m[k] == st;
      assert k in WindowsInState(keys, m, st);
    }
    if WindowsInState(keys, m, st) != [] {
      var k := WindowsInState(keys, m, st)[0];
      assert k in WindowsInState(keys, m, st);
    }
  }

  /** Filtering keeps the map order: the windows selected from a strictly
      sorted key order come out strictly sorted. */
  lemma {:induction false} WindowsInStateInMapOrder(keys: seq<Window>, m: map<Window, RenderingState>, st: RenderingState)
    requires StrictlySorted(keys)
    ensures StrictlySorted(WindowsInState(keys, m, st))
  {
    if keys != [] {
      var init := keys[..|keys| - 1];
      var last := keys[|keys| - 1];
      WindowsInStateInMapOrder(init, m, st);
      WindowsInStateMembers(init, m, st);
      var prefix := WindowsInState(init, m, st);
      forall x | x in prefix
        ensures x < last
      {
        var i :| 0 <= i < |init| && init[i] == x;
      }
      AppendSorted(prefix, last);
    }
  }

  /** Same for the windows a request type selects. */
  lemma {:induction false} WindowsMatchingInMapOrder(keys: seq<Window>, requestType: RequestType, mapperId: Window -> int)
    requires StrictlySorted(keys)
    ensures StrictlySorted(WindowsMatching(keys, requestType, mapperId))
  {
    if keys != [] {
      var init := keys[..|keys| - 1];
      var last := keys[|keys| - 1];
      WindowsMatchingInMapOrder(init, requestType, mapperId);
      WindowsMatchingMembers(init, requestType, mapperId);
      var prefix := WindowsMatching(init, requestType, mapperId);
      forall x | x in prefix
        ensures x < last
      {
        var i :| 0 <= i < |init| && init[i] == x;
      }
      AppendSorted(prefix, last);
    }
  }

  /** Number of windows of `keys` whose renderer reports mapper ID `id`. */
  function CountWithMapper(keys: seq<Window>, mapperId: Window -> int, id: int): (n: nat)
    ensures n <= |keys|
  {
    if keys == [] then 0
    else
      CountWithMapper(keys[..|keys| - 1], mapperId, id) + (if mapperId(keys[|keys| - 1]) == id then 1 else 0)
  }

  /** The distinct windows of `keys` whose renderer reports mapper ID `id`. */
  ghost function WindowsWithMapper(keys: seq<Window>, mapperId: Window -> int, id: int): set<Window>
  {
    set k | k in keys && mapperId(k) == id
  }

  /** Over a key order without repetitions the count is the number of
      distinct windows with that mapper ID. */
  lemma {:induction false} CountWithMapperIsCardinality(keys: seq<Window>, mapperId: Window -> int, id: int)
    requires StrictlySorted(keys)
    ensures CountWithMapper(keys, mapperId, id) == |WindowsWithMapper(keys, mapperId, id)|
  {
    if keys == [] {
      assert WindowsWithMapper(keys, mapperId, id) == {};
    } else {
      var init := keys[..|keys| - 1];
      var last := keys[|keys| - 1];
      assert StrictlySorted(init);
      CountWithMapperIsCardinality(init, mapperId, id);
      forall i | 0 <= i < |init|
        ensures init[i] != last
      {
        assert keys[i] < keys[|keys| - 1];
      }
      assert last !in init;
      var before := WindowsWithMapper(init, mapperId, id);
      var added: set<Window> := if mapperId(last) == id then {last} else {};
      forall k
        ensures k in WindowsWithMapper(keys, mapperId, id) <==> k in before + added
      {
        assert k in keys <==> k in init || k == last;
      }
      assert WindowsWithMapper(keys, mapperId, id) == before + added;
      assert before !! added;
    }
  }

  /** The map after every window selected by `requestType` is set to `st`. */
  function MarkMatching(m: map<Window, RenderingState>, requestType: RequestType, mapperId: Window -> int, st: RenderingState): (r: map<Window, RenderingState>)
    ensures r.Keys == m.Keys
  {
    map k | k in m :: if Matches(requestType, mapperId(k)) then st else m[k]
  }

  /** The map after every Requested window has been rendered and set back to
      Inactive. */
  function Serviced(m: map<Window, RenderingState>): (r: map<Window, RenderingState>)
    ensures r.Keys == m.Keys
  {
    map k | k in m :: if m[k] == Requested then Inactive else m[k]
  }

  /** Servicing leaves no request behind and no other window changed. */
  lemma ServicedLeavesNoRequest(m: map<Window, RenderingState>)
    ensures !AnyInState(Serviced(m), Requested)
    ensures forall k :: k in m && m[k] != Requested ==> Serviced(m)[k] == m[k]
  {
  }

  /** The progress of a walk that sets every selected window to `st`: the
      map once the windows of `keys` have been visited. */
  function MarkMatchingAmong(m: map<Window, RenderingState>, keys: seq<Window>, requestType: RequestType,
                             mapperId: Window -> int, st: RenderingState): map<Window, RenderingState>
  {
    if keys == [] then m
    else
      var last := keys[|keys| - 1];
      var before := MarkMatchingAmong(m, keys[..|keys| - 1], requestType, mapperId, st);
      if last in m && Matches(requestType, mapperId(last)) then before[last := st] else before
  }

  /** A visited window is marked when selected; every other window keeps its
      state. */
  lemma {:induction false} MarkMatchingAmongAt(m: map<Window, RenderingState>, keys: seq<Window>, requestType: RequestType,
                                               mapperId: Window -> int, st: RenderingState, k: Window)
    ensures k in MarkMatchingAmong(m, keys, requestType, mapperId, st) <==> k in m
    ensures k in m ==> MarkMatchingAmong(m, keys, requestType, mapperId, st)[k]
                       == if k in keys && Matches(requestType, mapperId(k)) then st else m[k]
  {
    if keys != [] {
      var init := keys[..|keys| - 1];
      assert keys == init + [keys[|keys| - 1]];
      MarkMatchingAmongAt(m, init, requestType, mapperId, st, k);
    }
  }

  /** A walk over the whole key order marks exactly the selected windows. */
  lemma MarkMatchingWalk(m: map<Window, RenderingState>, keys: seq<Window>, requestType: RequestType,
                         mapperId: Window -> int, st: RenderingState)
    requires KeyOrderOf(keys, m)
    ensures MarkMatchingAmong(m, keys, requestType, mapperId, st) == MarkMatching(m, requestType, mapperId, st)
  {
    var r := MarkMatchingAmong(m, keys, requestType, mapperId, st);
    forall k
      ensures k in r <==> k in m
      ensures k in m ==> r[k] == MarkMatching(m, requestType, mapperId, st)[k]
    {
      assert k in m ==> k in keys;
      MarkMatchingAmongAt(m, keys, requestType, mapperId, st, k);
    }
  }

  /** The progress of the update callback's walk: the map once the windows of
      `keys` have been visited, each Requested one rendered and set Inactive. */
  function ServicedAmong(m: map<Window, RenderingState>, keys: seq<Window>): map<Window, RenderingState>
  {
    if keys == [] then m
    else
      var last := keys[|keys| - 1];
      var before := ServicedAmong(m, keys[..|keys| - 1]);
      if last in m && m[last] == Requested then before[last := Inactive] else before
  }

  /** A visited Requested window is Inactive; every other window keeps its
      state. */
  lemma {:induction false} ServicedAmongAt(m: map<Window, RenderingState>, keys: seq<Window>, k: Window)
    ensures k in ServicedAmong(m, keys) <==> k in m
    ensures k in m ==> ServicedAmong(m, keys)[k] == if k in keys && m[k] == Requested then Inactive else m[k]
  {
    if keys != [] {
      var init := keys[..|keys| - 1];
      assert keys == init + [keys[|keys| - 1]];
      ServicedAmongAt(m, init, k);
    }
  }

  /** A walk over the whole key order services every request. */
  lemma ServicedWalk(m: map<Window, RenderingState>, keys: seq<Window>)
    requires KeyOrderOf(keys, m)
    ensures ServicedAmong(m, keys) == Serviced(m)
  {
    var r := ServicedAmong(m, keys);
    forall k
      ensures k in r <==> k in m
      ensures k in m ==> r[k] == Serviced(m)[k]
    {
      assert k in m ==> k in keys;
      ServicedAmongAt(m, keys, k);
    }
  }

  /** The windows of `keys` that `requestType` selects and that are being
      rendered in `m`: the ones a request for them aborts. */
  function AbortTargets(keys: seq<Window>, m: map<Window, RenderingState>, requestType: RequestType,
                        mapperId: Window -> int): set<Window>
  {
    if keys == [] then {}
    else
      var last := keys[|keys| - 1];
      var before := AbortTargets(keys[..|keys| - 1], m, requestType, mapperId);
      if Matches(requestType, mapperId(last)) && last in m && m[last] == InProgress then before + {last} else before
  }

  /** Over the whole key order, the abort targets are exactly the selected
      windows that are being rendered. */
  lemma {:induction false} AbortTargetsMembers(keys: seq<Window>, m: map<Window, RenderingState>, requestType: RequestType,
                                               mapperId: Window -> int)
    ensures forall k :: k in AbortTargets(keys, m, requestType, mapperId)
                    <==> k in keys && Matches(requestType, mapperId(k)) && k in m && m[k] == InProgress
  {
    if keys != [] {
      var init := keys[..|keys| - 1];
      assert keys == init + [keys[|keys| - 1]];
      AbortTargetsMembers(init, m, requestType, mapperId);
    }
  }

  /** Position of the first occurrence of `w` in `s`. */
  function FirstIndex(s: seq<Window>, w: Window): (i: nat)
    requires w in s
    ensures i < |s| && s[i] == w && w !in s[..i]
  {
    if s[0] == w then 0 else 1 + FirstIndex(s[1..], w)
  }

  /** The registration list after erasing the first occurrence of `w`, as
      std::find followed by erase does. */
  function RemoveFirst(s: seq<Window>, w: Window): seq<Window>
  {
    if s == [] then []
    else if s[0] == w then s[1..]
    else [s[0]] + RemoveFirst(s[1..], w)
  }

  /** No effect when `w` is absent; otherwise one entry fewer. */
  lemma {:induction false} RemoveFirstLength(s: seq<Window>, w: Window)
    ensures w !in s ==> RemoveFirst(s, w) == s
    ensures w in s ==> |RemoveFirst(s, w)| == |s| - 1
  {
    if s != [] && s[0] != w {
      RemoveFirstLength(s[1..], w);
      assert w in s ==> w in s[1..];
      assert w !in s ==> s == [s[0]] + s[1..];
    }
  }

  /** Exactly one occurrence of `w` fewer, and nothing else changes count. */
  lemma {:induction false} RemoveFirstCounts(s: seq<Window>, w: Window)
    ensures multiset(RemoveFirst(s, w)) == multiset(s) - multiset{w}
  {
    if s != [] {
      assert s == [s[0]] + s[1..];
      if s[0] != w {
        RemoveFirstCounts(s[1..], w);
      }
    }
  }

  /** Exactly the first occurrence is erased; everything else keeps its
      relative order. */
  lemma {:induction false} RemoveFirstAt(s: seq<Window>, w: Window)
    requires w in s
    ensures RemoveFirst(s, w) == s[..FirstIndex(s, w)] + s[FirstIndex(s, w) + 1..]
  {
    if s[0] != w {
      RemoveFirstAt(s[1..], w);
      var i := FirstIndex(s[1..], w);
      assert FirstIndex(s, w) == i + 1;
      calc {
        RemoveFirst(s, w);
        [s[0]] + RemoveFirst(s[1..], w);
        [s[0]] + (s[1..][..i] + s[1..][i + 1..]);
        { assert s[1..][..i] == s[1..i + 1]; assert s[1..][i + 1..] == s[i + 2..]; }
        [s[0]] + (s[1..i + 1] + s[i + 2..]);
        { AppendAssoc([s[0]], s[1..i + 1], s[i + 2..]); }
        ([s[0]] + s[1..i + 1]) + s[i + 2..];
        { assert [s[0]] + s[1..i + 1] == s[..i + 1]; }
        s[..i + 1] + s[i + 2..];
      }
    }
  }
}
