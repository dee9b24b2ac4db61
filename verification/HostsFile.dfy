/** The hosts file: entries appended with a marker, and the edit that takes them all out again. */
module HostsFile {
  import opened Text

  /** One fgetws call leaves room for the terminator in a buffer of 10000 characters. */
  const ROOM: nat := 9999

  // --- Reading: each read ends at a newline, which it keeps, or when the buffer is full ---

  function FirstRead(s: string): (n: nat)
    requires s != ""
    ensures 0 < n <= |s| && n <= ROOM
  {
    var i := SkipWhile(NotNewline, s, 0);
    var whole := if i < |s| then i + 1 else i;
    if whole <= ROOM then whole else ROOM
  }

  function Reads(s: string): seq<string>
  {
    if s == "" then [] else [s[..FirstRead(s)]] + Reads(s[FirstRead(s)..])
  }

  function Flatten(ls: seq<string>): string
  {
    if ls == [] then "" else ls[0] + Flatten(ls[1..])
  }

  method ReadAll(file: string) returns (strs: seq<string>)
    ensures strs == Reads(file)
  {
    hide FirstRead;
    strs := [];
    var stream := file;
    while stream != ""
      invariant Reads(file) == strs + Reads(stream)
      decreases |stream|
    {
      var n := FirstRead(stream);
      strs := strs + [stream[..n]];
      stream := stream[n..];
    }
  }

  // --- Searching ---

  predicate OccursAt(line: string, str: string, pos: nat)
  {
    pos + |str| <= |line| && line[pos..pos + |str|] == str
  }

  predicate Contains(line: string, str: string)
  {
    exists pos :: 0 <= pos <= |line| && OccursAt(line, str, pos)
  }

  /** The entry as a whole: bounded by the line, white space, or the start of a comment behind it. */
  predicate BoundedAt(line: string, str: string, pos: nat)
    requires pos + |str| <= |line|
  {
    && (pos == 0 || IsSpace(line[pos - 1]))
    && (pos + |str| == |line| || IsSpace(line[pos + |str|]) || line[pos + |str|] == '#')
  }

  predicate Listed(line: string, str: string)
  {
    exists pos :: 0 <= pos <= |line| && OccursAt(line, str, pos) && BoundedAt(line, str, pos)
  }

  predicate ListedIn(lines: seq<string>, str: string)
  {
    str != "" && exists line :: line in lines && Listed(line, str)
  }

  /** Next occurrence at or after a position, or absent. */
  method Find(line: string, str: string, from: nat) returns (pos: Option<nat>)
    ensures pos.Some? ==> from <= pos.value <= |line| && OccursAt(line, str, pos.value)
    ensures pos.Some? ==> forall p :: from <= p < pos.value ==> !OccursAt(line, str, p)
    ensures pos.None? ==> forall p :: from <= p <= |line| ==> !OccursAt(line, str, p)
  {
    var p := from;
    while p + |str| <= |line|
      invariant from <= p
      invariant forall q :: from <= q < p ==> !OccursAt(line, str, q)
    {
      if line[p..p + |str|] == str {
        return Some(p);
      }
      p := p + 1;
    }
    return None;
  }

  method StringInVector(vec: seq<string>, str: string) returns (found: bool)
    ensures found <==> ListedIn(vec, str)
  {
    if str == "" {
      return false;
    }
    var i := 0;
    while i < |vec|
      invariant 0 <= i <= |vec|
      invariant forall j :: 0 <= j < i ==> !Listed(vec[j], str)
    {
      found := SearchLine(vec[i], str);
      if found {
        assert vec[i] in vec;
        return;
      }
      i := i + 1;
    }
    return false;
  }

  method SearchLine(line: string, str: string) returns (found: bool)
    requires str != ""
    ensures found <==> Listed(line, str)
  {
    var pos := Find(line, str, 0);
    while pos.Some?
      invariant pos.Some? ==> pos.value <= |line| && OccursAt(line, str, pos.value)
      invariant forall p :: 0 <= p <= |line| && OccursAt(line, str, p) && (pos.Some? ==> p < pos.value) ==>
                  !BoundedAt(line, str, p)
      decreases if pos.Some? then |line| + 1 - pos.value else 0
    {
      var p := pos.value;
      var after := p + |str|;
      var boundaryBefore := p == 0 || IsSpace(line[p - 1]);
      var boundaryAfter := after == |line| || IsSpace(line[after]) || line[after] == '#';
      if boundaryBefore && boundaryAfter {
        assert BoundedAt(line, str, p);
        return true;
      }
      pos := Find(line, str, p + 1);
    }
    return false;
  }

  // --- The two edits ---

  function EndsWithNewline(s: string): bool { s != "" && s[|s| - 1] == '\n' }

  function WithNewline(s: string): string { if s == "" || EndsWithNewline(s) then s else s + "\n" }

  function WithoutNewline(s: string): string { if EndsWithNewline(s) then s[..|s| - 1] else s }

  function Entry(ip: string, hostname: string): string { ip + " " + hostname }

  function MarkedLine(entry: string, marker: string): string { entry + "   #" + marker }

  function Added(file: string, entry: string, marker: string): string
  {
    if ListedIn(Reads(file), entry) then file else WithNewline(file) + MarkedLine(entry, marker)
  }

  /** The reads without the marker. */
  function Unmarked(reads_: seq<string>, marker: string): seq<string>
  {
    if reads_ == [] then []
    else (if Contains(reads_[0], marker) then [] else [reads_[0]]) + Unmarked(reads_[1..], marker)
  }

  function Kept(file: string, marker: string): string { Flatten(Unmarked(Reads(file), marker)) }

  function Removed(file: string, marker: string): string { WithoutNewline(Kept(file, marker)) }
}
