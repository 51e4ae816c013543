/**
 * The parts of Python's POSIX `os.path` that the dictionary store uses to
 * derive file names: `join` of two components, `basename`, `dirname`, plus
 * `str.split('.')[0]`.
 */
module Paths {

  const Sep: char := '/'

  /** No character of `s` is the separator. */
  predicate NoSep(s: string) {
    forall i :: 0 <= i < |s| ==> s[i] != Sep
  }

  /** Every character of `s` is the separator (`head == sep * len(head)`). */
  predicate AllSeps(s: string) {
    forall i :: 0 <= i < |s| ==> s[i] == Sep
  }

  /** `p.rfind('/')`: the index of the last separator, or -1 when there is none. */
  function RFindSep(p: string): (i: int)
    ensures -1 <= i < |p|
    ensures 0 <= i ==> p[i] == Sep
    ensures forall j :: i < j < |p| ==> p[j] != Sep
  {
    if |p| == 0 then -1
    else if p[|p| - 1] == Sep then |p| - 1
    else RFindSep(p[..|p| - 1])
  }

  /** `os.path.join(a, b)`: an absolute `b` replaces `a`; otherwise a separator
      is inserted unless `a` is empty or already ends with one. */
  function Join(a: string, b: string): string {
    if |b| > 0 && b[0] == Sep then b
    else if a == [] || a[|a| - 1] == Sep then a + b
    else a + [Sep] + b
  }

  /** `os.path.basename(p)`: everything after the last separator. */
  function Basename(p: string): (b: string)
    ensures NoSep(b)
  {
    p[RFindSep(p) + 1..]
  }

  /** The base name is the part of the path after its last separator. */
  lemma BasenameIsSuffix(p: string)
    ensures |Basename(p)| <= |p| && Basename(p) == p[|p| - |Basename(p)|..]
    ensures |Basename(p)| < |p| ==> p[|p| - |Basename(p)| - 1] == Sep
  {
  }

  /** `head.rstrip('/')`. */
  function RStripSeps(s: string): (r: string)
    ensures r <= s
    ensures r == [] || r[|r| - 1] != Sep
    ensures AllSeps(s[|r|..])
  {
    if |s| > 0 && s[|s| - 1] == Sep then RStripSeps(s[..|s| - 1]) else s
  }

  /** `os.path.dirname(p)`: everything up to the last separator, with trailing
      separators removed unless that prefix consists of separators only. */
  function Dirname(p: string): string {
    var head := p[..RFindSep(p) + 1];
    if head != [] && !AllSeps(head) then RStripSeps(head) else head
  }

  /** `name.split('.')[0]`: the longest prefix of `name` without a dot. */
  function Stem(name: string): (t: string)
    ensures t <= name
    ensures '.' !in t
    ensures |t| < |name| ==> name[|t|] == '.'
  {
    if name == [] || name[0] == '.' then [] else [name[0]] + Stem(name[1..])
  }

  /** The file `export` writes for `destinPath`: the destination's directory,
      and its base name cut at the first dot with `.json` appended. */
  function ExportPath(destinPath: string): string {
    Join(Dirname(destinPath), Stem(Basename(destinPath)) + ".json")
  }

  /** The last separator is the one `RFindSep` reports: its contract pins it down. */
  lemma RFindSepIs(p: string, i: int)
    requires -1 <= i < |p|
    requires 0 <= i ==> p[i] == Sep
    requires forall j :: i < j < |p| ==> p[j] != Sep
    ensures RFindSep(p) == i
  {
  }

  /** A directory as `Dirname` returns it is empty, consists of separators
      only, or does not end in a separator. */
  lemma DirnameShape(p: string)
    ensures var d := Dirname(p); d == [] || AllSeps(d) || d[|d| - 1] != Sep
  {
  }

  /** Joining a directory `Dirname` produced with a plain file name, then
      splitting the result again, gives back the directory and the name. */
  lemma {:induction false} JoinSplits(p: string, name: string)
    requires name != [] && NoSep(name)
    ensures Dirname(Join(Dirname(p), name)) == Dirname(p)
    ensures Basename(Join(Dirname(p), name)) == name
  {
    var d := Dirname(p);
    DirnameShape(p);
    if d == [] {
      assert Join(d, name) == name;
      RFindSepIs(name, -1);
    } else if AllSeps(d) {
      var q := d + name;
      assert Join(d, name) == q;
      RFindSepIs(q, |d| - 1);
      assert q[..|d|] == d;
    } else {
      var q := d + [Sep] + name;
      assert Join(d, name) == q;
      RFindSepIs(q, |d|);
      var head := q[..|d| + 1];
      assert head == d + [Sep];
      assert head[|d| - 1] != Sep;
      assert head[..|head| - 1] == d;
      assert RStripSeps(head) == d;
    }
  }

  /** The path `export` derives keeps the destination's directory and names
      the file after the destination's base name up to its first dot. */
  lemma ExportPathParts(destinPath: string)
    ensures Dirname(ExportPath(destinPath)) == Dirname(destinPath)
    ensures Basename(ExportPath(destinPath)) == Stem(Basename(destinPath)) + ".json"
  {
    var name := Stem(Basename(destinPath)) + ".json";
    assert NoSep(name) by {
      var b := Basename(destinPath);
      var t := Stem(b);
      forall i | 0 <= i < |name| ensures name[i] != Sep {
        if i < |t| {
          assert name[i] == b[i];
        }
      }
    }
    JoinSplits(destinPath, name);
  }

  /** The first dot is where `Stem` cuts: its contract pins it down. */
  lemma StemIs(name: string, k: nat)
    requires k < |name| && name[k] == '.' && '.' !in name[..k]
    ensures Stem(name) == name[..k]
  {
    var t := Stem(name);
    assert forall i :: 0 <= i < |t| ==> t[i] == name[i] != '.';
  }

  /** A path made of a directory that does not end in a separator, one
      separator and a plain name splits back into those two parts. */
  lemma SplitAtLastSep(dir: string, name: string)
    requires dir != [] && dir[|dir| - 1] != Sep && NoSep(name)
    ensures Dirname(dir + [Sep] + name) == dir
    ensures Basename(dir + [Sep] + name) == name
  {
    var p := dir + [Sep] + name;
    RFindSepIs(p, |dir|);
    var head := p[..|dir| + 1];
    assert head == dir + [Sep];
    assert head[|dir| - 1] != Sep;
    assert head[..|dir|] == dir;
  }

  /** A worked case: `export(name, "out/report.final.txt")` writes `out/report.json`. */
  lemma ExportPathExample()
    ensures ExportPath("out/report.final.txt") == "out/report.json"
  {
    var dir, stem, rest := "out", "report", ".final.txt";
    assert dir + [Sep] + (stem + rest) == "out/report.final.txt";
    SplitAtLastSep(dir, stem + rest);
    StemIs(stem + rest, |stem|);
    assert (stem + rest)[..|stem|] == stem;
    assert Join(dir, stem + ".json") == "out/report.json";
  }
}
