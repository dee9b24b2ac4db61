/** Removing undoes adding, and adding twice is adding once. */
module HostsUndo {
  import opened Text
  import opened HostsFile

  // --- Reads of a text in two parts ---

  /** Empty, or made of terminated lines. */
  predicate Terminated(s: string) { s == "" || EndsWithNewline(s) }

  lemma NewlineAhead(s: string)
    requires EndsWithNewline(s)
    ensures SkipWhile(NotNewline, s, 0) < |s|
  {
  }

  lemma FirstReadAppend(f: string, t: string)
    requires EndsWithNewline(f)
    ensures FirstRead(f + t) == FirstRead(f)
  {
    hide SkipWhile;
    NewlineAhead(f);
    var i := SkipWhile(NotNewline, f, 0);
    assert forall k :: 0 <= k < i ==> (f + t)[k] == f[k];
    SkipUnique(NotNewline, f + t, 0, i);
  }

  lemma {:induction false} ReadsAppend(f: string, t: string)
    requires Terminated(f)
    ensures Reads(f + t) == Reads(f) + Reads(t)
    decreases |f|
  {
    hide FirstRead;
    if f == "" {
      assert f + t == t;
    } else {
      FirstReadAppend(f, t);
      var n := FirstRead(f);
      assert (f + t)[..n] == f[..n] && (f + t)[n..] == f[n..] + t;
      assert f[n..] != "" ==> f[n..][|f[n..]| - 1] == f[|f| - 1];
      ReadsAppend(f[n..], t);
    }
  }

  lemma {:induction false} UnmarkedAppend(a: seq<string>, b: seq<string>, marker: string)
    ensures Unmarked(a + b, marker) == Unmarked(a, marker) + Unmarked(b, marker)
  {
    hide Contains;
    if a == [] {
      assert a + b == b;
    } else {
      assert (a + b)[1..] == a[1..] + b;
      UnmarkedAppend(a[1..], b, marker);
    }
  }

  lemma {:induction false} FlattenAppend(a: seq<string>, b: seq<string>)
    ensures Flatten(a + b) == Flatten(a) + Flatten(b)
  {
    if a == [] {
      assert a + b == b;
    } else {
      assert (a + b)[1..] == a[1..] + b;
      FlattenAppend(a[1..], b);
    }
  }

  lemma KeptAppend(f: string, t: string, marker: string)
    requires Terminated(f)
    ensures Kept(f + t, marker) == Kept(f, marker) + Kept(t, marker)
  {
    hide Reads, Unmarked, Flatten;
    ReadsAppend(f, t);
    UnmarkedAppend(Reads(f), Reads(t), marker);
    FlattenAppend(Unmarked(Reads(f), marker), Unmarked(Reads(t), marker));
  }

  // --- Lines with the marker, and texts without it ---

  predicate NoNewline(s: string) { '\n' !in s }

  /** An entry on one line that, with its marker and newline, is read in one piece. */
  predicate Plain(entry: string, marker: string)
  {
    NoNewline(entry) && NoNewline(marker) && |MarkedLine(entry, marker)| < ROOM
  }

  lemma OneRead(line: string)
    requires line != "" && NoNewline(line) && |line| < ROOM
    ensures Reads(line) == [line] && Reads(line + "\n") == [line + "\n"]
  {
    hide SkipWhile;
    SkipUnique(NotNewline, line, 0, |line|);
    WholeRead(line);
    SkipUnique(NotNewline, line + "\n", 0, |line|);
    WholeRead(line + "\n");
  }

  lemma WholeRead(s: string)
    requires s != "" && FirstRead(s) == |s|
    ensures Reads(s) == [s]
  {
    hide FirstRead;
    assert s[..|s|] == s && s[|s|..] == "";
  }

  /** A marked line, terminated or not, is not kept. */
  lemma MarkedLineDropped(entry: string, marker: string)
    requires Plain(entry, marker)
    ensures Kept(MarkedLine(entry, marker), marker) == "" && Kept(MarkedLine(entry, marker) + "\n", marker) == ""
  {
    hide Reads, Contains;
    var line := MarkedLine(entry, marker);
    OneRead(line);
    MarkerThere(entry, marker);
    assert Unmarked([line], marker) == [] && Unmarked([line + "\n"], marker) == [];
  }

  lemma MarkerThere(entry: string, marker: string)
    ensures var line := MarkedLine(entry, marker); Contains(line, marker) && Contains(line + "\n", marker)
  {
    var line, pos := MarkedLine(entry, marker), |entry| + 4;
    assert line[pos..pos + |marker|] == marker && (line + "\n")[pos..pos + |marker|] == marker;
    assert OccursAt(line, marker, pos) && OccursAt(line + "\n", marker, pos);
  }

  lemma PartsClean(s: string, n: nat, marker: string)
    requires n <= |s| && !Contains(s, marker)
    ensures !Contains(s[..n], marker) && !Contains(s[n..], marker)
  {
    forall pos | 0 <= pos <= n ensures !OccursAt(s[..n], marker, pos) {
      assert !OccursAt(s, marker, pos);
      if pos + |marker| <= n {
        assert s[..n][pos..pos + |marker|] == s[pos..pos + |marker|];
      }
    }
    forall pos | 0 <= pos <= |s| - n ensures !OccursAt(s[n..], marker, pos) {
      assert !OccursAt(s, marker, n + pos);
      if n + pos + |marker| <= |s| {
        assert s[n..][pos..pos + |marker|] == s[n + pos..n + pos + |marker|];
      }
    }
  }

  lemma {:induction false} CleanKept(s: string, marker: string)
    requires !Contains(s, marker)
    ensures Kept(s, marker) == s
    decreases |s|
  {
    hide FirstRead;
    if s != "" {
      var n := FirstRead(s);
      PartsClean(s, n, marker);
      CleanKept(s[n..], marker);
      assert s[..n] + s[n..] == s;
      assert Unmarked(Reads(s), marker) == [s[..n]] + Unmarked(Reads(s[n..]), marker);
    }
  }

  lemma CleanWithNewline(s: string, marker: string)
    requires marker != "" && NoNewline(marker) && !Contains(s, marker)
    ensures !Contains(WithNewline(s), marker)
  {
    var t, m := WithNewline(s), |marker|;
    assert marker[m - 1] in marker;
    forall pos | 0 <= pos <= |t| ensures !OccursAt(t, marker, pos) {
      if t != s && pos + m == |t| {
        assert t[pos..pos + m][m - 1] == t[|t| - 1];
      } else if pos + m <= |s| {
        assert !OccursAt(s, marker, pos);
        assert s[pos..pos + m] == t[pos..pos + m];
      }
    }
  }

  // --- Adding and removing ---

  function AddedAll(file: string, entries: seq<string>, marker: string): string
    decreases |entries|
  {
    if entries == [] then file else AddedAll(Added(file, entries[0], marker), entries[1..], marker)
  }

  /** Terminated lines of which the original is what is kept, and behind them one marked line. */
  predicate Grown(file: string, original: string, marker: string, before: string, entry: string)
  {
    && Terminated(before) && Kept(before, marker) == WithNewline(original)
    && Plain(entry, marker) && file == before + MarkedLine(entry, marker)
  }

  ghost predicate Inv(file: string, original: string, marker: string)
  {
    file == original || exists before, entry :: Grown(file, original, marker, before, entry)
  }

  lemma AddKeeps(file: string, original: string, entry: string, marker: string)
    requires marker != "" && !Contains(original, marker) && Plain(entry, marker) && Inv(file, original, marker)
    ensures Inv(Added(file, entry, marker), original, marker)
  {
    hide Kept, Contains, ListedIn, Reads;
    var line := MarkedLine(entry, marker);
    if file == original {
      CleanWithNewline(original, marker);
      CleanKept(WithNewline(original), marker);
      assert Grown(WithNewline(file) + line, original, marker, WithNewline(file), entry);
    } else {
      var before, last :| Grown(file, original, marker, before, last);
      var m := MarkedLine(last, marker);
      MarkedLineDropped(last, marker);
      KeptAppend(before, m + "\n", marker);
      assert file[|file| - 1] == marker[|marker| - 1] && marker[|marker| - 1] in marker;
      assert WithNewline(file) == before + (m + "\n");
      assert Grown(WithNewline(file) + line, original, marker, WithNewline(file), entry);
    }
  }

  lemma {:induction false} AddsKeep(file: string, original: string, entries: seq<string>, marker: string)
    requires marker != "" && !Contains(original, marker) && forall e :: e in entries ==> Plain(e, marker)
    requires Inv(file, original, marker)
    ensures Inv(AddedAll(file, entries, marker), original, marker)
    decreases |entries|
  {
    hide Inv, Contains, Added;
    if entries != [] {
      assert entries[0] in entries;
      AddKeeps(file, original, entries[0], marker);
      AddsKeep(Added(file, entries[0], marker), original, entries[1..], marker);
    }
  }

  /** Whatever one-line entries were added to a file without the marker, removing gives the file back, less its final
      newline if it had one. */
  lemma RemoveUndoesAdds(original: string, entries: seq<string>, marker: string)
    requires marker != "" && !Contains(original, marker) && forall e :: e in entries ==> Plain(e, marker)
    ensures Removed(AddedAll(original, entries, marker), marker) == WithoutNewline(original)
  {
    hide Kept, Contains, AddedAll;
    AddsKeep(original, original, entries, marker);
    var file := AddedAll(original, entries, marker);
    if file == original {
      CleanKept(original, marker);
    } else {
      var before, entry :| Grown(file, original, marker, before, entry);
      MarkedLineDropped(entry, marker);
      KeptAppend(before, MarkedLine(entry, marker), marker);
      assert Kept(file, marker) == WithNewline(original);
    }
  }

  // --- Exactly which entries are undone ---

  /** A marker that cannot run into the separator in front of it, nor end in it. */
  predicate GoodMarker(marker: string)
  {
    marker != "" && NoNewline(marker) && '#' !in marker && marker[|marker| - 1] != ' '
  }

  /** The marked line is read in one piece. */
  predicate FitsOneRead(entry: string, marker: string)
  {
    NoNewline(entry) && |MarkedLine(entry, marker)| <= ROOM
  }

  /** An entry without the marker has it on its marked line only at the end. */
  lemma MarkerOnlyAtEnd(entry: string, marker: string, pos: nat)
    requires GoodMarker(marker) && !Contains(entry, marker)
    ensures OccursAt(MarkedLine(entry, marker), marker, pos) ==> pos == |entry| + 4
  {
    var line, m := MarkedLine(entry, marker), |marker|;
    if pos + m <= |entry| {
      assert entry[pos..pos + m] == line[pos..pos + m];
      assert !OccursAt(entry, marker, pos);
    } else if pos + m <= |entry| + 3 {
      assert line[pos..pos + m][m - 1] == ' ';
    } else if pos <= |entry| + 3 && pos + m <= |line| {
      var k := |entry| + 3 - pos;
      assert line[pos..pos + m][k] == '#' && marker[k] in marker;
    }
  }

  lemma FirstReadIsAll(entry: string, marker: string)
    requires GoodMarker(marker)
    ensures FirstRead(MarkedLine(entry, marker)) == |MarkedLine(entry, marker)| <==> FitsOneRead(entry, marker)
  {
    hide SkipWhile;
    var line := MarkedLine(entry, marker);
    var i := SkipWhile(NotNewline, line, 0);
    assert line[|line| - 1] == marker[|marker| - 1] && marker[|marker| - 1] in marker;
    if NoNewline(entry) {
      forall k | 0 <= k < |line| ensures line[k] != '\n' {
        if k < |entry| {
          assert entry[k] in entry;
        } else if k >= |entry| + 4 {
          assert marker[k - |entry| - 4] in marker;
        }
      }
      SkipUnique(NotNewline, line, 0, |line|);
    } else {
      var k :| 0 <= k < |entry| && entry[k] == '\n';
      assert line[k] == '\n';
      assert i <= k;
    }
  }

  /** What is kept of a marked line: nothing if it is read in one piece, else at least its first piece. */
  lemma KeptOfMarkedLine(entry: string, marker: string)
    requires GoodMarker(marker) && !Contains(entry, marker)
    ensures var line := MarkedLine(entry, marker); var n := FirstRead(line);
      if FitsOneRead(entry, marker) then Kept(line, marker) == ""
      else n < |line| && Kept(line, marker) == line[..n] + Kept(line[n..], marker)
  {
    hide FirstRead, Contains;
    var line := MarkedLine(entry, marker);
    var n := FirstRead(line);
    FirstReadIsAll(entry, marker);
    if FitsOneRead(entry, marker) {
      WholeRead(line);
      MarkerThere(entry, marker);
      assert Unmarked([line], marker) == [];
    } else {
      assert !Contains(line[..n], marker) by { FirstPieceClean(entry, marker, n); }
      assert Reads(line) == [line[..n]] + Reads(line[n..]);
      assert Unmarked(Reads(line), marker) == [line[..n]] + Unmarked(Reads(line[n..]), marker);
    }
  }

  lemma FirstPieceClean(entry: string, marker: string, n: nat)
    requires GoodMarker(marker) && !Contains(entry, marker) && n < |MarkedLine(entry, marker)|
    ensures !Contains(MarkedLine(entry, marker)[..n], marker)
  {
    var line := MarkedLine(entry, marker);
    forall pos | 0 <= pos <= n ensures !OccursAt(line[..n], marker, pos) {
      if pos + |marker| <= n {
        assert line[..n][pos..pos + |marker|] == line[pos..pos + |marker|];
        MarkerOnlyAtEnd(entry, marker, pos);
      }
    }
  }

  /** Only a newline is kept exactly when the entry is a newline and then an entry read in one piece. */
  lemma KeptIsNewline(entry: string, marker: string)
    requires GoodMarker(marker) && !Contains(entry, marker)
    ensures Kept(MarkedLine(entry, marker), marker) == "\n" <==>
      entry != "" && entry[0] == '\n' && FitsOneRead(entry[1..], marker)
  {
    hide SkipWhile, Kept, Contains;
    var line := MarkedLine(entry, marker);
    var n := FirstRead(line);
    KeptOfMarkedLine(entry, marker);
    if entry != "" && entry[0] == '\n' {
      assert line[0] == '\n' && entry[0] in entry;
      assert SkipWhile(NotNewline, line, 0) == 0;
      assert n == 1 && line[..1] == "\n" && line[1..] == MarkedLine(entry[1..], marker);
      PartsClean(entry, 1, marker);
      KeptOfMarkedLine(entry[1..], marker);
    } else {
      assert line[0] != '\n';
      assert line[..n][0] == line[0];
    }
  }

  /** MAIN RESULT. Adding an entry without the marker to a file without it is undone, less the file's final newline, if
      and only if the entry was listed already or its marked line is read in one piece, that is, holds no newline and
      fits the buffer; or the file is empty and the entry is a newline in front of such an entry. */
  lemma AddUndoneIff(file: string, entry: string, marker: string)
    requires GoodMarker(marker) && !Contains(file, marker) && !Contains(entry, marker)
    ensures Removed(Added(file, entry, marker), marker) == WithoutNewline(file) <==>
      || ListedIn(Reads(file), entry)
      || FitsOneRead(entry, marker)
      || (file == "" && entry != "" && entry[0] == '\n' && FitsOneRead(entry[1..], marker))
  {
    hide Kept, Contains, MarkedLine, ListedIn, Reads, FitsOneRead, FirstRead;
    if ListedIn(Reads(file), entry) {
      CleanKept(file, marker);
    } else {
      var line := MarkedLine(entry, marker);
      CleanWithNewline(file, marker);
      CleanKept(WithNewline(file), marker);
      KeptAppend(WithNewline(file), line, marker);
      KeptOfMarkedLine(entry, marker);
      KeptIsNewline(entry, marker);
      NothingKeptIff(entry, marker);
      StrippedSame(file, Kept(line, marker));
    }
  }

  lemma NothingKeptIff(entry: string, marker: string)
    requires GoodMarker(marker) && !Contains(entry, marker)
    ensures Kept(MarkedLine(entry, marker), marker) == "" <==> FitsOneRead(entry, marker)
  {
    hide Kept, Contains;
    KeptOfMarkedLine(entry, marker);
  }

  lemma StrippedSame(file: string, kept: string)
    ensures WithoutNewline(WithNewline(file) + kept) == WithoutNewline(file) <==>
      kept == "" || (file == "" && kept == "\n")
  {
    if kept == "" {
      assert WithNewline(file) + kept == WithNewline(file);
    }
  }

  /** Once added, an entry is found again, so adding it a second time writes nothing. */
  lemma AddingTwiceIsAddingOnce(file: string, entry: string, marker: string)
    requires entry != "" && NoNewline(entry) && |entry| <= ROOM
    ensures var once := Added(file, entry, marker); Added(once, entry, marker) == once
  {
    hide Reads, Listed;
    if !ListedIn(Reads(file), entry) {
      var line := MarkedLine(entry, marker);
      ReadsAppend(WithNewline(file), line);
      EntryReadAgain(entry, marker);
      var first := Reads(line)[0];
      assert first in Reads(line);
      assert first in Reads(WithNewline(file) + line);
    }
  }

  lemma EntryReadAgain(entry: string, marker: string)
    requires entry != "" && NoNewline(entry) && |entry| <= ROOM
    ensures Reads(MarkedLine(entry, marker)) != [] && Listed(Reads(MarkedLine(entry, marker))[0], entry)
  {
    hide SkipWhile;
    var line := MarkedLine(entry, marker);
    var i := SkipWhile(NotNewline, line, 0);
    forall k | 0 <= k < |entry| ensures line[k] != '\n' {
      assert line[k] == entry[k] && entry[k] in entry;
    }
    var n := FirstRead(line);
    assert line[..n][..|entry|] == entry;
    assert OccursAt(line[..n], entry, 0);
    assert BoundedAt(line[..n], entry, 0);
  }

  // --- The methods ---

  class HostsEdit {
    const addedByMarker: string
    /** The contents of the hosts file. */
    var file: string

    constructor (marker: string, file: string)
      ensures addedByMarker == marker && this.file == file
    {
      addedByMarker, this.file := marker, file;
    }

    method AddHosts(ip: string, hostname: string)
      modifies this
      ensures file == Added(old(file), Entry(ip, hostname), addedByMarker)
    {
      hide Reads, ListedIn;
      var strs := ReadAll(file);
      var entry := ip + " " + hostname;
      var listed := StringInVector(strs, entry);
      if !listed {
        LastRead(file);
        if strs != [] && strs[|strs| - 1] != "" && strs[|strs| - 1][|strs[|strs| - 1]| - 1] != '\n' {
          file := file + "\n";
        }
        file := file + entry;
        file := file + "   #";
        file := file + addedByMarker;
        assert file == WithNewline(old(file)) + MarkedLine(entry, addedByMarker);
      }
    }

    /** Rewrites the file without the marked lines, by way of a temporary file moved over it. */
    method RemoveHosts()
      modifies this
      ensures file == Removed(old(file), addedByMarker)
    {
      hide Reads, Unmarked, Contains, Flatten;
      var all := ReadAll(file);
      var strs := DropMarked(all, addedByMarker);
      UnmarkedNonEmpty(file, addedByMarker);
      var temp := "";
      var i := 0;
      FlattenTake(strs, 0);
      while i < |strs|
        invariant 0 <= i <= |strs|
        invariant temp == if i < |strs| || i == 0 then Flatten(strs[..i]) else WithoutNewline(Flatten(strs))
      {
        var str := strs[i];
        FlattenTake(strs, i);
        if i == |strs| - 1 {
          assert str in strs;
          StripLast(temp, str);
          if str != "" && str[|str| - 1] == '\n' {
            str := str[..|str| - 1];
          }
        }
        temp := temp + str;
        i := i + 1;
      }
      if strs == [] {
        assert temp == Flatten([]) && strs[..0] == strs;
      }
      file := temp;
    }
  }

  lemma StripLast(prefix: string, last: string)
    requires last != ""
    ensures WithoutNewline(prefix + last) == prefix + WithoutNewline(last)
  {
  }

  /** The last read tells whether the text ends with a newline. */
  lemma {:induction false} LastRead(s: string)
    ensures var strs := Reads(s);
      && (s == "" <==> strs == [])
      && (s != "" ==> strs[|strs| - 1] != "" && strs[|strs| - 1][|strs[|strs| - 1]| - 1] == s[|s| - 1])
    decreases |s|
  {
    hide FirstRead;
    if s != "" {
      LastRead(s[FirstRead(s)..]);
    }
  }

  method DropMarked(lines: seq<string>, marker: string) returns (strs: seq<string>)
    ensures strs == Unmarked(lines, marker)
  {
    hide Unmarked, Contains;
    strs := [];
    var i := 0;
    UnmarkedTake(lines, 0, marker);
    while i < |lines|
      invariant 0 <= i <= |lines|
      invariant strs == Unmarked(lines[..i], marker)
    {
      UnmarkedTake(lines, i, marker);
      var pos := Find(lines[i], marker, 0);
      assert pos.Some? <==> Contains(lines[i], marker) by { FoundIff(lines[i], marker, pos); }
      if pos.None? {
        strs := strs + [lines[i]];
      }
      i := i + 1;
    }
    assert lines[..i] == lines;
  }

  lemma FoundIff(line: string, str: string, pos: Option<nat>)
    requires pos.Some? ==> pos.value <= |line| && OccursAt(line, str, pos.value)
    requires pos.None? ==> forall p :: 0 <= p <= |line| ==> !OccursAt(line, str, p)
    ensures pos.Some? <==> Contains(line, str)
  {
  }

  lemma UnmarkedTake(lines: seq<string>, i: nat, marker: string)
    requires i <= |lines|
    ensures Unmarked(lines[..0], marker) == []
    ensures i < |lines| ==>
      Unmarked(lines[..i + 1], marker) ==
      Unmarked(lines[..i], marker) + if Contains(lines[i], marker) then [] else [lines[i]]
  {
    hide Contains;
    if i < |lines| {
      assert lines[..i + 1] == lines[..i] + [lines[i]];
      UnmarkedAppend(lines[..i], [lines[i]], marker);
      assert [lines[i]][1..] == [];
    }
  }

  lemma FlattenTake(strs: seq<string>, i: nat)
    requires i <= |strs|
    ensures Flatten(strs[..0]) == ""
    ensures i < |strs| ==> Flatten(strs[..i + 1]) == Flatten(strs[..i]) + strs[i]
    ensures strs[..|strs|] == strs
  {
    if i < |strs| {
      assert strs[..i + 1] == strs[..i] + [strs[i]];
      FlattenAppend(strs[..i], [strs[i]]);
      assert [strs[i]][1..] == [] && Flatten([strs[i]]) == strs[i] + Flatten([]);
    }
  }

  /** No read is empty. */
  lemma {:induction false} UnmarkedNonEmpty(s: string, marker: string)
    ensures forall str :: str in Unmarked(Reads(s), marker) ==> str != ""
    decreases |s|
  {
    hide FirstRead, Contains;
    if s != "" {
      UnmarkedNonEmpty(s[FirstRead(s)..], marker);
    }
  }
}
