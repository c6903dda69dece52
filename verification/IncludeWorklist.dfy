/** The worklist of configuration files: a queue that starts with the main file and grows
    by the files each one includes, with a hard bound against include cycles. */
module IncludeWorklist {

  const MAX_INCLUDE_FILES := 1000

  /** A resolved path. */
  datatype File = File(path: string)

  /** What reading one file gives: an error in the file or in resolving its includes, or
      the files its includes resolve to, in order. */
  datatype Reading = Unreadable | Included(files: seq<File>)

  /** The file system, fixed while the configuration is read. */
  type FileSystem = File -> Reading

  datatype Outcome = Parsed(visits: seq<File>) | FileFails(visits: seq<File>) | TooMany(visits: seq<File>)

  /** The queue after `processed` files; `visits` remembers the order of processing. */
  function Process(fs: FileSystem, queue: seq<File>, visits: seq<File>): Outcome
    requires |visits| <= MAX_INCLUDE_FILES
    decreases MAX_INCLUDE_FILES - |visits|
  {
    if queue == [] then Parsed(visits)
    else if |visits| == MAX_INCLUDE_FILES then TooMany(visits)
    else
      match fs(queue[0])
      case Unreadable => FileFails(visits + [queue[0]])
      case Included(files) => Process(fs, queue[1..] + files, visits + [queue[0]])
  }

  method ParseConfigFile(fs: FileSystem, path: File) returns (outcome: Outcome)
    ensures outcome == Process(fs, [path], [])
  {
    var filesToParse := [path];
    var filesProcessed := 0;
    var visits := [];
    while filesToParse != []
      invariant filesProcessed == |visits| <= MAX_INCLUDE_FILES
      invariant Process(fs, filesToParse, visits) == Process(fs, [path], [])
      decreases MAX_INCLUDE_FILES - filesProcessed
    {
      if filesProcessed + 1 > MAX_INCLUDE_FILES {
        return TooMany(visits);
      }
      filesProcessed := filesProcessed + 1;
      var currentFile := filesToParse[0];
      filesToParse := filesToParse[1..];
      visits := visits + [currentFile];
      match fs(currentFile)
      case Unreadable =>
        return FileFails(visits);
      case Included(files) =>
        filesToParse := filesToParse + files;
    }
    return Parsed(visits);
  }

  // ----- Breadth-first levels of the unfolded include graph

  function IncludesOf(fs: FileSystem, f: File): seq<File> {
    match fs(f)
    case Unreadable => []
    case Included(files) => files
  }

  function AllIncludes(fs: FileSystem, files: seq<File>): seq<File> {
    if files == [] then [] else IncludesOf(fs, files[0]) + AllIncludes(fs, files[1..])
  }

  /** The first n levels, one after the other. */
  function Levels(fs: FileSystem, files: seq<File>, n: nat): seq<File>
    decreases n
  {
    if n == 0 then [] else files + Levels(fs, AllIncludes(fs, files), n - 1)
  }

  predicate AllReadable(fs: FileSystem, files: seq<File>) {
    forall f :: f in files ==> fs(f).Included?
  }

  lemma {:induction false} PeelHead(fs: FileSystem, f: File, tail: seq<File>, rest: seq<File>, visits: seq<File>)
    requires fs(f).Included? && |visits| < MAX_INCLUDE_FILES
    ensures Process(fs, [f] + tail + rest, visits)
         == Process(fs, tail + (rest + IncludesOf(fs, f)), visits + [f])
  {
    var queue := [f] + tail + rest;
    assert queue[0] == f;
    assert queue[1..] + IncludesOf(fs, f) == tail + (rest + IncludesOf(fs, f));
  }

  lemma Regroup(level: seq<File>, rest: seq<File>, own: seq<File>, below: seq<File>, visits: seq<File>)
    requires level != []
    ensures level == [level[0]] + level[1..]
    ensures (rest + own) + below == rest + (own + below)
    ensures (visits + [level[0]]) + level[1..] == visits + level
  {
  }

  /** A whole level in front of the queue is worked off before what it includes. */
  lemma {:induction false} LevelIsWorkedOff(fs: FileSystem, level: seq<File>, rest: seq<File>, visits: seq<File>)
    requires AllReadable(fs, level) && |visits| + |level| <= MAX_INCLUDE_FILES
    ensures Process(fs, level + rest, visits) == Process(fs, rest + AllIncludes(fs, level), visits + level)
    decreases |level|
  {
    if level == [] {
      assert level + rest == rest && rest + [] == rest && visits + [] == visits;
    } else {
      var f, tail := level[0], level[1..];
      var later := rest + IncludesOf(fs, f);
      assert f in level;
      PeelHead(fs, f, tail, rest, visits);
      LevelIsWorkedOff(fs, tail, later, visits + [f]);
      Regroup(level, rest, IncludesOf(fs, f), AllIncludes(fs, tail), visits);
    }
  }

  /** A level that does not fit, or holds an unreadable file, ends the run without success. */
  lemma {:induction false} BadLevelFails(fs: FileSystem, level: seq<File>, rest: seq<File>, visits: seq<File>)
    requires |visits| <= MAX_INCLUDE_FILES
    requires !AllReadable(fs, level) || |visits| + |level| > MAX_INCLUDE_FILES
    ensures !Process(fs, level + rest, visits).Parsed?
    decreases |level|
  {
    if level != [] && |visits| < MAX_INCLUDE_FILES && fs(level[0]).Included? {
      var f, tail := level[0], level[1..];
      assert (level + rest)[1..] + IncludesOf(fs, f) == tail + (rest + IncludesOf(fs, f));
      assert level == [f] + tail;
      BadLevelFails(fs, tail, rest + IncludesOf(fs, f), visits + [f]);
    }
  }

  /** The unfolding of the include graph below some files ends after n levels. */
  predicate EndsAfter(fs: FileSystem, files: seq<File>, n: nat)
    decreases n
  {
    if n == 0 then files == [] else EndsAfter(fs, AllIncludes(fs, files), n - 1)
  }

  /** Success means that the unfolding is finite, fits the bound and is readable, and that
      its files were visited level by level. */
  lemma {:induction false} SuccessGivesLevels(fs: FileSystem, files: seq<File>, visits: seq<File>) returns (n: nat)
    requires |visits| <= MAX_INCLUDE_FILES && Process(fs, files, visits).Parsed?
    ensures EndsAfter(fs, files, n) && AllReadable(fs, Levels(fs, files, n))
    ensures |visits| + |Levels(fs, files, n)| <= MAX_INCLUDE_FILES
    ensures Process(fs, files, visits) == Parsed(visits + Levels(fs, files, n))
    decreases MAX_INCLUDE_FILES - |visits|
  {
    if files == [] {
      n := 0;
      assert visits + [] == visits;
    } else {
      LevelFits(fs, files, visits);
      OneLevel(fs, files, visits);
      var next := AllIncludes(fs, files);
      var m := SuccessGivesLevels(fs, next, visits + files);
      n := m + 1;
      LevelsStep(fs, files, visits, n);
    }
  }

  lemma {:induction false} LevelFits(fs: FileSystem, files: seq<File>, visits: seq<File>)
    requires |visits| <= MAX_INCLUDE_FILES && Process(fs, files, visits).Parsed?
    ensures AllReadable(fs, files) && |visits| + |files| <= MAX_INCLUDE_FILES
  {
    if !AllReadable(fs, files) || |visits| + |files| > MAX_INCLUDE_FILES {
      assert files + [] == files;
      BadLevelFails(fs, files, [], visits);
    }
  }

  lemma {:induction false} OneLevel(fs: FileSystem, files: seq<File>, visits: seq<File>)
    requires AllReadable(fs, files) && |visits| + |files| <= MAX_INCLUDE_FILES
    ensures Process(fs, files, visits) == Process(fs, AllIncludes(fs, files), visits + files)
  {
    LevelIsWorkedOff(fs, files, [], visits);
    assert files + [] == files;
    assert [] + AllIncludes(fs, files) == AllIncludes(fs, files);
  }

  lemma LevelsStep(fs: FileSystem, files: seq<File>, visits: seq<File>, n: nat)
    requires n > 0
    ensures |Levels(fs, files, n)| == |files| + |Levels(fs, AllIncludes(fs, files), n - 1)|
    ensures (visits + files) + Levels(fs, AllIncludes(fs, files), n - 1) == visits + Levels(fs, files, n)
    ensures AllReadable(fs, Levels(fs, files, n)) <==>
      AllReadable(fs, files) && AllReadable(fs, Levels(fs, AllIncludes(fs, files), n - 1))
  {
    var rest := Levels(fs, AllIncludes(fs, files), n - 1);
    assert forall f :: f in files + rest <==> f in files || f in rest;
  }

  lemma {:induction false} LevelsGiveSuccess(fs: FileSystem, files: seq<File>, visits: seq<File>, n: nat)
    requires EndsAfter(fs, files, n) && AllReadable(fs, Levels(fs, files, n))
    requires |visits| + |Levels(fs, files, n)| <= MAX_INCLUDE_FILES
    ensures Process(fs, files, visits) == Parsed(visits + Levels(fs, files, n))
    decreases n
  {
    if n == 0 {
      assert visits + [] == visits;
    } else {
      var next := AllIncludes(fs, files);
      LevelsStep(fs, files, visits, n);
      LevelsGiveSuccess(fs, next, visits + files, n - 1);
      OneLevel(fs, files, visits);
    }
  }

  /** The include graph below a file unfolds into n levels, readable and within the bound. */
  predicate Fits(fs: FileSystem, path: File, n: nat) {
    && EndsAfter(fs, [path], n)
    && AllReadable(fs, Levels(fs, [path], n))
    && |Levels(fs, [path], n)| <= 1000
  }

  /** Reading succeeds exactly when the unfolded include graph is finite, readable and of at
      most 1000 files; then the files are read in breadth-first order. */
  lemma SucceedsIffUnfoldingFits(fs: FileSystem, path: File)
    ensures Process(fs, [path], []).Parsed? <==> exists n: nat :: Fits(fs, path, n)
    ensures forall n: nat :: Fits(fs, path, n) ==> Process(fs, [path], []) == Parsed(Levels(fs, [path], n))
  {
    if Process(fs, [path], []).Parsed? {
      var n := SuccessGivesLevels(fs, [path], []);
      assert Fits(fs, path, n);
    }
    forall n: nat | Fits(fs, path, n)
      ensures Process(fs, [path], []) == Parsed(Levels(fs, [path], n))
    {
      LevelsGiveSuccess(fs, [path], [], n);
      assert [] + Levels(fs, [path], n) == Levels(fs, [path], n);
    }
  }

  // ----- No cycles

  /** A chain of includes. */
  ghost predicate IsPath(fs: FileSystem, p: seq<File>) {
    p != [] && forall i :: 0 <= i < |p| - 1 ==> p[i + 1] in IncludesOf(fs, p[i])
  }

  lemma {:induction false} IncludedIsListed(fs: FileSystem, files: seq<File>, f: File, g: File)
    requires f in files && g in IncludesOf(fs, f)
    ensures g in AllIncludes(fs, files)
  {
    if f != files[0] {
      IncludedIsListed(fs, files[1..], f, g);
    }
  }

  /** An unfolding that ends after n levels has no path of more than n files. */
  lemma {:induction false} PathsAreShort(fs: FileSystem, files: seq<File>, n: nat, p: seq<File>)
    requires EndsAfter(fs, files, n) && IsPath(fs, p) && p[0] in files
    ensures |p| <= n
    decreases n
  {
    if n > 0 && |p| > 1 {
      IncludedIsListed(fs, files, p[0], p[1]);
      forall i | 0 <= i < |p[1..]| - 1
        ensures p[1..][i + 1] in IncludesOf(fs, p[1..][i])
      {
        assert p[i + 2] in IncludesOf(fs, p[i + 1]);
      }
      PathsAreShort(fs, AllIncludes(fs, files), n - 1, p[1..]);
    }
  }

  /** Going round a cycle once more. */
  lemma {:induction false} Pump(fs: FileSystem, p: seq<File>, i: nat, j: nat, n: nat) returns (q: seq<File>)
    requires IsPath(fs, p) && i < j < |p| && p[i] == p[j]
    ensures IsPath(fs, q) && q[0] == p[0] && |q| > n
    decreases if |p| > n then 0 else n - |p| + 1
  {
    if |p| > n {
      q := p;
    } else {
      var longer := p[..j] + p[i..];
      forall k | 0 <= k < |longer| - 1
        ensures longer[k + 1] in IncludesOf(fs, longer[k])
      {
        if k < j - 1 {
          assert p[k + 1] in IncludesOf(fs, p[k]);
        } else if k == j - 1 {
          assert longer[k + 1] == p[i] == p[k + 1];
          assert p[k + 1] in IncludesOf(fs, p[k]);
        } else {
          var m := k - j + i;
          assert longer[k] == p[m] && longer[k + 1] == p[m + 1];
          assert p[m + 1] in IncludesOf(fs, p[m]);
        }
      }
      assert longer[i] == p[i] && longer[j] == p[i];
      q := Pump(fs, longer, i, j, n);
    }
  }

  /** After a successful read no chain of includes from the main file meets a file twice. */
  lemma SuccessMeansAcyclic(fs: FileSystem, path: File, p: seq<File>)
    requires Process(fs, [path], []).Parsed?
    requires IsPath(fs, p) && p[0] == path
    ensures forall i, j :: 0 <= i < j < |p| ==> p[i] != p[j]
  {
    var n := SuccessGivesLevels(fs, [path], []);
    if i, j :| 0 <= i < j < |p| && p[i] == p[j] {
      var q := Pump(fs, p, i, j, n);
      PathsAreShort(fs, [path], n, q);
    }
  }
}
