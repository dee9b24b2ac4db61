/** The list of running processes: mark and sweep over the saved map, and unique names for new entries. */
module Processes {
  import opened Text

  /** One saved process. */
  datatype Descr = Descr(handle: nat, name: string, used: bool)

  // --- Names ---

  /** The k-th name tried. */
  function Candidate(name: string, k: nat): string { if k == 0 then name else name + "#" + Decimal(k) }

  lemma CandidateInjective(name: string, j: nat, k: nat)
    ensures Candidate(name, j) == Candidate(name, k) ==> j == k
  {
    hide Decimal;
    if j > 0 && k > 0 {
      assert Candidate(name, j)[|name| + 1..] == Decimal(j);
      assert Candidate(name, k)[|name| + 1..] == Decimal(k);
      DecimalInjective(j, k);
    }
  }

  function Candidates(name: string, n: nat): set<string> { set k | 0 <= k < n :: Candidate(name, k) }

  lemma {:induction false} CandidateCount(name: string, n: nat)
    ensures |Candidates(name, n)| == n
  {
    hide Candidate;
    if n > 0 {
      CandidateCount(name, n - 1);
      assert Candidates(name, n) == Candidates(name, n - 1) + {Candidate(name, n - 1)};
      if Candidate(name, n - 1) in Candidates(name, n - 1) {
        var k :| 0 <= k < n - 1 && Candidate(name, k) == Candidate(name, n - 1);
        CandidateInjective(name, k, n - 1);
      }
    }
  }

  lemma SubsetSize(a: set<string>, b: set<string>)
    requires a <= b
    ensures |a| <= |b|
    decreases b
  {
    if a != {} {
      var x :| x in a;
      SubsetSize(a - {x}, b - {x});
    }
  }

  /** Pigeonhole: among the first |taken| + 1 candidates one is free. */
  lemma SomeCandidateFree(name: string, taken: set<string>)
    ensures exists k :: 0 <= k <= |taken| && Candidate(name, k) !in taken
  {
    hide Candidate;
    if forall k :: 0 <= k <= |taken| ==> Candidate(name, k) in taken {
      CandidateCount(name, |taken| + 1);
      SubsetSize(Candidates(name, |taken| + 1), taken);
      assert false;
    }
  }

  function NamesOf(ps: map<nat, Descr>): set<string> { set pid | pid in ps :: ps[pid].name }

  lemma {:induction false} NamesFit(ps: map<nat, Descr>)
    ensures |NamesOf(ps)| <= |ps|
    decreases |ps|
  {
    if ps != map[] {
      var pid :| pid in ps;
      var smaller := ps - {pid};
      assert ps.Keys == smaller.Keys + {pid};
      NamesFit(smaller);
      assert NamesOf(ps) == NamesOf(smaller) + {ps[pid].name};
    }
  }

  /** Whether a name is in use; the order of the search does not matter. */
  method IsModuleExists(ps: map<nat, Descr>, name: string) returns (found: bool)
    ensures found <==> name in NamesOf(ps)
  {
    var left := ps.Keys;
    found := false;
    while left != {} && !found
      invariant left <= ps.Keys
      invariant found ==> name in NamesOf(ps)
      invariant !found ==> forall pid :: pid in ps && pid !in left ==> ps[pid].name != name
      decreases |left|
    {
      var pid :| pid in left;
      left := left - {pid};
      found := ps[pid].name == name;
    }
  }

  /** The first free name, found within one try more than there are processes. */
  method UniqueName(ps: map<nat, Descr>, name: string) returns (unique: string, ghost k: nat)
    ensures unique == Candidate(name, k) && unique !in NamesOf(ps) && k <= |ps|
    ensures forall j :: 0 <= j < k ==> Candidate(name, j) in NamesOf(ps)
  {
    hide Candidate, NamesOf;
    NamesFit(ps);
    SomeCandidateFree(name, NamesOf(ps));
    ghost var free :| 0 <= free <= |NamesOf(ps)| && Candidate(name, free) !in NamesOf(ps);
    var count := 0;
    unique := name;
    assert Candidate(name, 0) == name by { FirstCandidate(name); }
    var exists_ := true;
    while exists_
      invariant 0 <= count
      invariant forall j :: 0 <= j < count - (if exists_ then 0 else 1) ==> Candidate(name, j) in NamesOf(ps)
      invariant count == 0 ==> exists_
      invariant !exists_ ==> unique == Candidate(name, count - 1) && unique !in NamesOf(ps)
      invariant count == 0 ==> unique == Candidate(name, 0)
      invariant count <= free + 1 && (exists_ ==> count <= free)
      decreases exists_, free + 1 - count
    {
      if count > 0 {
        unique := Suffixed(name, count);
      }
      exists_ := IsModuleExists(ps, unique);
      count := count + 1;
    }
    k := count - 1;
  }

  function Suffixed(name: string, count: nat): (s: string)
    requires count > 0
    ensures s == Candidate(name, count)
  {
    name + "#" + Decimal(count)
  }

  lemma FirstCandidate(name: string)
    ensures Candidate(name, 0) == name
  {
  }

  // --- One call ---

  /** What the system answers about a process that is not in the map yet. */
  datatype Answer = CannotOpen | NoModules | NoName | Named(file: string)

  const SKIPPED := "chrome.exe"

  predicate Skips(file: string) { Lower(file) == SKIPPED }

  /** The file name without its extension; it has one, so it is at least four characters long. */
  predicate HasExtension(a: Answer) { a.Named? ==> |a.file| >= 4 }

  predicate Adds(a: Answer) { a.Named? && !Skips(a.file) }

  function Stem(file: string): string
    requires |file| >= 4
  {
    file[..|file| - 4]
  }

  predicate DistinctNames(ps: map<nat, Descr>)
  {
    forall p, q :: p in ps && q in ps && p != q ==> ps[p].name != ps[q].name
  }

  predicate DistinctHandles(ps: map<nat, Descr>)
  {
    forall p, q :: p in ps && q in ps && p != q ==> ps[p].handle != ps[q].handle
  }

  function HandlesOf(ps: map<nat, Descr>): set<nat> { set pid | pid in ps :: ps[pid].handle }

  predicate Increasing(s: seq<nat>) { forall i, j :: 0 <= i < j < |s| ==> s[i] < s[j] }

  /** Names are distinct, and the open handles are exactly those stored, each stored once. */
  predicate Books(ps: map<nat, Descr>, open: set<nat>, nextHandle: nat)
  {
    && DistinctNames(ps) && DistinctHandles(ps)
    && open == HandlesOf(ps)
    && forall h :: h in open ==> h < nextHandle
  }

  lemma BooksDistinct(ps: map<nat, Descr>, open: set<nat>, nextHandle: nat)
    requires Books(ps, open, nextHandle)
    ensures DistinctNames(ps)
  {
  }

  lemma BooksAfterClose(ps: map<nat, Descr>, open: set<nat>, nextHandle: nat, pid: nat)
    requires Books(ps, open, nextHandle) && pid in ps
    ensures Books(ps - {pid}, open - {ps[pid].handle}, nextHandle)
  {
    CloseOne(ps, ps.Keys, pid);
  }

  lemma BooksAfterMark(ps: map<nat, Descr>, open: set<nat>, nextHandle: nat, pids: seq<nat>)
    requires Books(ps, open, nextHandle)
    ensures Books(Marked(ps, pids), open, nextHandle)
  {
    SameHandles(ps, Marked(ps, pids), pids);
  }

  lemma BooksAfterAdd(ps: map<nat, Descr>, open: set<nat>, nextHandle: nat, pid: nat, name: string)
    requires Books(ps, open, nextHandle) && pid !in ps && name !in NamesOf(ps)
    ensures Books(ps[pid := Descr(nextHandle, name, true)], open + {nextHandle}, nextHandle + 1)
  {
    HandlesAdded(ps, pid, Descr(nextHandle, name, true));
    forall p | p in ps ensures ps[p].name != name && ps[p].handle != nextHandle {
      assert ps[p].name in NamesOf(ps);
      assert ps[p].handle in HandlesOf(ps);
    }
  }

  /** The map with the process under the k-th name tried, if it is to be listed. */
  function Saved(ps: map<nat, Descr>, pid: nat, answer: Answer, handle: nat, k: nat): map<nat, Descr>
    requires HasExtension(answer)
  {
    if Adds(answer) then ps[pid := Descr(handle, Candidate(Stem(answer.file), k), true)] else ps
  }

  lemma SavedKeys(ps: map<nat, Descr>, pid: nat, answer: Answer, handle: nat, k: nat)
    requires HasExtension(answer) && pid !in ps
    ensures Saved(ps, pid, answer, handle, k).Keys == ps.Keys + if Adds(answer) then {pid} else {}
    ensures forall p :: p in ps ==> Saved(ps, pid, answer, handle, k)[p] == ps[p]
  {
  }

  function Wanted(pids: seq<nat>, answers: nat -> Answer): set<nat> { set pid | pid in pids && Adds(answers(pid)) }

  /** After the first `i` processes: the old entries as they were, and those of the new ones that are wanted. */
  predicate Progress(ps: map<nat, Descr>, ps': map<nat, Descr>, pids: seq<nat>, answers: nat -> Answer, i: nat)
    requires i <= |pids|
  {
    && ps'.Keys == ps.Keys + Wanted(pids[..i], answers)
    && forall pid :: pid in ps ==> ps'[pid] == ps[pid]
  }

  lemma ProgressStarts(ps: map<nat, Descr>, pids: seq<nat>, answers: nat -> Answer)
    ensures Progress(ps, ps, pids, answers, 0)
  {
  }

  lemma ProgressStep(ps: map<nat, Descr>, before: map<nat, Descr>, pids: seq<nat>, answers: nat -> Answer, i: nat,
                     handle: nat, k: nat)
    requires i < |pids| && Progress(ps, before, pids, answers, i) && HasExtension(answers(pids[i]))
    ensures var after := if pids[i] in before then before else Saved(before, pids[i], answers(pids[i]), handle, k);
      Progress(ps, after, pids, answers, i + 1)
  {
    hide HasExtension;
    WantedStep(pids, answers, i);
    if pids[i] !in before {
      SavedKeys(before, pids[i], answers(pids[i]), handle, k);
    }
  }

  lemma ProgressEnds(ps: map<nat, Descr>, ps': map<nat, Descr>, pids: seq<nat>, answers: nat -> Answer)
    requires Progress(ps, ps', pids, answers, |pids|)
    ensures ps'.Keys == ps.Keys + Wanted(pids, answers) && forall pid :: pid in ps ==> ps'[pid] == ps[pid]
  {
    assert pids[..|pids|] == pids;
  }

  lemma WantedStep(pids: seq<nat>, answers: nat -> Answer, i: nat)
    requires i < |pids|
    ensures Wanted(pids[..i + 1], answers) ==
      Wanted(pids[..i], answers) + if Adds(answers(pids[i])) then {pids[i]} else {}
  {
    hide Adds;
    assert pids[..i + 1] == pids[..i] + [pids[i]];
  }

  lemma BooksLater(ps: map<nat, Descr>, open: set<nat>, nextHandle: nat)
    requires Books(ps, open, nextHandle)
    ensures Books(ps, open, nextHandle + 1) && nextHandle !in open
  {
  }

  /** Opens a process and, if it has a name worth listing, saves it under a unique one; else its handle is closed. */
  method AddProcess(ps: map<nat, Descr>, open: set<nat>, nextHandle: nat, pid: nat, answer: Answer)
    returns (ps': map<nat, Descr>, open': set<nat>, next': nat, ghost k: nat)
    requires Books(ps, open, nextHandle) && pid !in ps && HasExtension(answer)
    ensures Books(ps', open', next') && k <= |ps| && ps' == Saved(ps, pid, answer, nextHandle, k)
  {
    hide Candidate, Books;
    BooksLater(ps, open, nextHandle);
    ps', open', next', k := ps, open, nextHandle, 0;
    if answer == CannotOpen {
      return;
    }
    next' := nextHandle + 1;
    open' := open + {nextHandle};
    if answer.Named? && !Skips(answer.file) {
      var name;
      name, k := UniqueName(ps, Stem(answer.file));
      BooksAfterAdd(ps, open, nextHandle, pid, name);
      ps' := ps[pid := Descr(nextHandle, name, true)];
    } else {
      open' := open' - {nextHandle};
      assert open' == open;
    }
  }

  /** Goes through the enumerated processes that are not in the map. */
  method AddNew(ps: map<nat, Descr>, open: set<nat>, nextHandle: nat, pids: seq<nat>, answers: nat -> Answer)
    returns (ps': map<nat, Descr>, open': set<nat>, next': nat)
    requires Books(ps, open, nextHandle) && forall pid :: HasExtension(answers(pid))
    ensures Books(ps', open', next')
    ensures ps'.Keys == ps.Keys + Wanted(pids, answers)
    ensures forall pid :: pid in ps ==> ps'[pid] == ps[pid]
  {
    hide Adds, HasExtension, Books, Saved, Progress;
    ps', open', next' := ps, open, nextHandle;
    var i := 0;
    ProgressStarts(ps, pids, answers);
    while i < |pids|
      invariant 0 <= i <= |pids| && Books(ps', open', next')
      invariant Progress(ps, ps', pids, answers, i)
    {
      ghost var before, handle, k := ps', next', 0;
      if pids[i] !in ps' {
        ps', open', next', k := AddProcess(ps', open', next', pids[i], answers(pids[i]));
      }
      ProgressStep(ps, before, pids, answers, i, handle, k);
      i := i + 1;
    }
    ProgressEnds(ps, ps', pids, answers);
  }

  class ActiveProcesses {
    var processes: map<nat, Descr>
    /** The clearing timer is armed. */
    var timer: bool
    /** The process handles the system has open on the helper's behalf, and the next one it gives out. */
    var open: set<nat>
    var nextHandle: nat

    predicate Valid()
      reads this
    {
      Books(processes, open, nextHandle)
    }

    constructor (nextHandle: nat)
      ensures Valid() && processes == map[] && !timer
    {
      processes, timer, open, this.nextHandle := map[], false, {}, nextHandle;
    }

    /** Closes every handle and empties the map; the timer's callback and the explicit clear share it. */
    method Clear()
      requires Valid()
      modifies this
      ensures Valid() && processes == map[] && open == {}
      ensures timer == old(timer)
    {
      var left := processes.Keys;
      while left != {}
        invariant left <= processes.Keys && processes == old(processes) && timer == old(timer)
        invariant open == set pid | pid in left :: processes[pid].handle
        decreases |left|
      {
        var pid :| pid in left;
        CloseOne(processes, left, pid);
        open := open - {processes[pid].handle};
        left := left - {pid};
      }
      processes := map[];
    }

    method ClearSavedListProcesses()
      requires Valid()
      modifies this
      ensures Valid() && processes == map[] && open == {} && !timer
    {
      timer := false;
      Clear();
    }

    /** Closes the handles of the processes that are gone and forgets them. */
    method Sweep(pids: seq<nat>)
      requires Valid()
      modifies this`processes, this`open
      ensures Valid()
      ensures processes.Keys == set pid | pid in old(processes) && pid in pids
      ensures forall pid :: pid in processes ==> processes[pid] == old(processes)[pid].(used := true)
    {
      hide Books;
      var marked := Mark(processes, pids);
      BooksAfterMark(processes, open, nextHandle, pids);
      processes := marked;
      var left := marked.Keys;
      while left != {}
        invariant left <= marked.Keys && Valid()
        invariant processes == map pid | pid in marked && (pid in left || pid in pids) :: marked[pid]
        decreases |left|
      {
        var pid :| pid in left;
        left := left - {pid};
        if !processes[pid].used {
          BooksAfterClose(processes, open, nextHandle, pid);
          open := open - {processes[pid].handle};
          processes := processes - {pid};
        }
      }
    }

    /** The names of the running processes. `pids` is absent when the system cannot enumerate them. */
    method GetList(pids: Option<seq<nat>>, answers: nat -> Answer, armed: bool) returns (list: seq<string>)
      requires Valid() && forall pid :: HasExtension(answers(pid))
      modifies this
      ensures Valid()
      ensures pids == None ==> list == [] && processes == old(processes) && open == old(open) && !timer
      ensures pids.Some? ==> timer == armed
      ensures pids.Some? ==>
                processes.Keys == set pid | pid in pids.value && (pid in old(processes) || Adds(answers(pid)))
      ensures pids.Some? ==> forall pid :: pid in processes && pid in old(processes) ==>
        processes[pid].name == old(processes)[pid].name && processes[pid].handle == old(processes)[pid].handle
      ensures pids.Some? ==> ListOf(processes, list)
      ensures forall i, j :: 0 <= i < j < |list| ==> list[i] != list[j]
    {
      timer := false;
      if pids == None {
        return [];
      }
      Sweep(pids.value);
      hide Adds, Books;
      processes, open, nextHandle := AddNew(processes, open, nextHandle, pids.value, answers);
      timer := armed;
      list := List();
      assert DistinctNames(processes) by { BooksDistinct(processes, open, nextHandle); }
      ListIsExact(processes, list);
    }

    /** The saved names in the order of the process ids. */
    method List() returns (list: seq<string>)
      requires Valid()
      ensures ListOf(processes, list)
    {
      var keys := SortedKeys(processes);
      list := [];
      var i := 0;
      while i < |keys|
        invariant 0 <= i <= |keys| && |list| == i
        invariant forall j :: 0 <= j < i ==> list[j] == processes[keys[j]].name
      {
        list := list + [processes[keys[i]].name];
        i := i + 1;
      }
      assert ListAlong(processes, keys, list);
    }
  }

  predicate ListAlong(ps: map<nat, Descr>, keys: seq<nat>, list: seq<string>)
  {
    && Increasing(keys) && Elements(keys) == ps.Keys && |list| == |keys|
    && forall j :: 0 <= j < |keys| ==> keys[j] in ps && list[j] == ps[keys[j]].name
  }

  /** The list has the saved names by increasing process id. */
  ghost predicate ListOf(ps: map<nat, Descr>, list: seq<string>)
  {
    exists keys :: ListAlong(ps, keys, list)
  }

  /** Distinct saved names make a list without repetitions that misses nothing. */
  lemma ListIsExact(ps: map<nat, Descr>, list: seq<string>)
    requires DistinctNames(ps) && ListOf(ps, list)
    ensures forall i, j :: 0 <= i < j < |list| ==> list[i] != list[j]
    ensures forall name :: name in list <==> name in NamesOf(ps)
  {
    hide DistinctNames, NamesOf;
    var keys :| ListAlong(ps, keys, list);
    forall i, j | 0 <= i < j < |list| ensures list[i] != list[j] {
      assert keys[i] < keys[j];
      NamesDiffer(ps, keys[i], keys[j]);
    }
    ListNames(ps, keys, list);
  }

  lemma NamesDiffer(ps: map<nat, Descr>, p: nat, q: nat)
    requires DistinctNames(ps) && p in ps && q in ps && p != q
    ensures ps[p].name != ps[q].name
  {
  }

  lemma ListNames(ps: map<nat, Descr>, keys: seq<nat>, list: seq<string>)
    requires ListAlong(ps, keys, list)
    ensures forall name :: name in list <==> name in NamesOf(ps)
  {
    hide Increasing;
    forall name | name in NamesOf(ps) ensures name in list {
      var pid :| pid in ps && ps[pid].name == name;
      assert pid in Elements(keys);
      var j :| 0 <= j < |keys| && keys[j] == pid;
      assert list[j] == name;
    }
    forall name | name in list ensures name in NamesOf(ps) {
      var j :| 0 <= j < |list| && list[j] == name;
      assert ps[keys[j]].name == name;
    }
  }

  function Elements(s: seq<nat>): set<nat> { set k | k in s }

  lemma ElementsSnoc(s: seq<nat>, k: nat)
    ensures Elements(s + [k]) == Elements(s) + {k} && Elements([]) == {}
  {
  }

  method SortedKeys(ps: map<nat, Descr>) returns (keys: seq<nat>)
    ensures Increasing(keys) && Elements(keys) == ps.Keys
  {
    hide Elements;
    keys := [];
    var left := ps.Keys;
    ElementsSnoc([], 0);
    while left != {}
      invariant left <= ps.Keys && Increasing(keys)
      invariant Elements(keys) == ps.Keys - left
      invariant forall i, k :: 0 <= i < |keys| && k in left ==> keys[i] < k
      decreases |left|
    {
      var least := Least(left);
      ElementsSnoc(keys, least);
      keys := keys + [least];
      left := left - {least};
    }
  }

  method Least(s: set<nat>) returns (least: nat)
    requires s != {}
    ensures least in s && forall k :: k in s ==> least <= k
  {
    least :| least in s;
    var left := s - {least};
    while left != {}
      invariant left <= s && least in s && forall k :: k in s && k !in left ==> least <= k
      decreases |left|
    {
      var k :| k in left;
      left := left - {k};
      if k < least {
        least := k;
      }
    }
  }

  function Marked(ps: map<nat, Descr>, pids: seq<nat>): map<nat, Descr>
  {
    map pid | pid in ps :: ps[pid].(used := pid in pids)
  }

  /** Clears every mark, then marks the processes still there. */
  method Mark(ps: map<nat, Descr>, pids: seq<nat>) returns (marked: map<nat, Descr>)
    ensures marked == Marked(ps, pids)
  {
    marked := map pid | pid in ps :: ps[pid].(used := false);
    var i := 0;
    while i < |pids|
      invariant 0 <= i <= |pids|
      invariant marked == Marked(ps, pids[..i])
    {
      assert pids[..i + 1] == pids[..i] + [pids[i]];
      if pids[i] in marked {
        marked := marked[pids[i] := marked[pids[i]].(used := true)];
      }
      i := i + 1;
    }
    assert pids[..i] == pids;
  }

  lemma SameHandles(ps: map<nat, Descr>, marked: map<nat, Descr>, pids: seq<nat>)
    requires marked == Marked(ps, pids)
    ensures HandlesOf(marked) == HandlesOf(ps) && marked.Keys == ps.Keys
    ensures DistinctNames(ps) ==> DistinctNames(marked)
    ensures DistinctHandles(ps) ==> DistinctHandles(marked)
  {
    forall h | h in HandlesOf(ps) ensures h in HandlesOf(marked) {
      var pid :| pid in ps && ps[pid].handle == h;
      assert marked[pid].handle == h;
    }
  }

  lemma CloseOne(ps: map<nat, Descr>, left: set<nat>, pid: nat)
    requires left <= ps.Keys && pid in left && DistinctHandles(ps)
    ensures (set p | p in left - {pid} :: ps[p].handle) == (set p | p in left :: ps[p].handle) - {ps[pid].handle}
    ensures HandlesOf(ps - {pid}) == HandlesOf(ps) - {ps[pid].handle}
  {
    forall h | h in HandlesOf(ps) && h != ps[pid].handle ensures h in HandlesOf(ps - {pid}) {
      var p :| p in ps && ps[p].handle == h;
      assert p in ps - {pid};
    }
  }

  lemma HandlesAdded(ps: map<nat, Descr>, pid: nat, d: Descr)
    requires pid !in ps
    ensures HandlesOf(ps[pid := d]) == HandlesOf(ps) + {d.handle}
  {
    var after := ps[pid := d];
    forall h | h in HandlesOf(ps) ensures h in HandlesOf(after) {
      var p :| p in ps && ps[p].handle == h;
      assert after[p].handle == h;
    }
    assert after[pid].handle == d.handle;
  }
}
