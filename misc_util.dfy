/**
 * MiscUtil.java: the backup-name search of `getNonExistentPath`, the text-file test and the
 * command list of `createProcessBuilder`. The file system is the finite set of paths that
 * exist; a file's length is a parameter. The date helpers this class shares with DateUtil
 * are modelled in DateUtil.
 */
module MiscUtil {
  import opened Wrappers
  import Strings
  import Paths

  /** The file name contains a '.', so `substring(0, lastIndexOf("."))` does not throw */
  predicate HasExtension(fileName: string) {
    Strings.LastIndexOf(fileName, '.') >= 0
  }

  /** The name before the last '.' */
  function Base(fileName: string): string
    requires HasExtension(fileName)
  {
    fileName[..Strings.LastIndexOf(fileName, '.')]
  }

  /** The text after the last '.' */
  function Ext(fileName: string): string
    requires HasExtension(fileName)
  {
    fileName[Strings.LastIndexOf(fileName, '.') + 1..]
  }

  /** The index of the last '.' is fixed by the text after it having no '.' */
  lemma LastDotAt(s: string, k: int)
    requires 0 <= k < |s| && s[k] == '.'
    requires forall j :: k < j < |s| ==> s[j] != '.'
    ensures Strings.LastIndexOf(s, '.') == k
  {
  }

  /**
   * The numbered name `base (n).ext`, always built from the original name: it splits back
   * into the original base with " (n)" appended and the original extension
   */
  function Numbered(fileName: string, n: nat): (r: string)
    requires HasExtension(fileName)
    ensures HasExtension(r)
    ensures Base(r) == Base(fileName) + " (" + Strings.NatToString(n) + ")"
    ensures Ext(r) == Ext(fileName)
    ensures |r| > |fileName|
  {
    var head := Base(fileName) + " (" + Strings.NatToString(n) + ")";
    var r := head + "." + Ext(fileName);
    assert r[|head|] == '.';
    assert r[|head| + 1..] == Ext(fileName);
    forall j | |head| < j < |r| ensures r[j] != '.' {
      assert r[j] == Ext(fileName)[j - |head| - 1];
      assert fileName[Strings.LastIndexOf(fileName, '.') + 1 + (j - |head| - 1)] == r[j];
    }
    LastDotAt(r, |head|);
    assert r[..|head|] == head;
    r
  }

  /** Different numbers give different names */
  lemma NumberedInjective(fileName: string, a: nat, b: nat)
    requires HasExtension(fileName)
    requires Numbered(fileName, a) == Numbered(fileName, b)
    ensures a == b
  {
    var prefix := Base(fileName) + " (";
    var sa, sb := Strings.NatToString(a), Strings.NatToString(b);
    assert Base(Numbered(fileName, a)) == prefix + sa + ")";
    assert Base(Numbered(fileName, b)) == prefix + sb + ")";
    assert |sa| == |sb|;
    assert sa == (prefix + sa + ")")[|prefix|..|prefix| + |sa|];
    assert sb == (prefix + sb + ")")[|prefix|..|prefix| + |sb|];
    Strings.NatToStringInjective(a, b);
  }

  /** The path tried for number n */
  function Candidate(parent: string, fileName: string, n: nat, sep: char): string
    requires HasExtension(fileName)
  {
    Paths.Resolve(parent, Numbered(fileName, n), sep)
  }

  /** The path for number m differs from the original path and from every path for a smaller number */
  lemma CandidateFresh(parent: string, fileName: string, m: nat, sep: char)
    requires HasExtension(fileName)
    ensures Candidate(parent, fileName, m, sep) != Paths.Resolve(parent, fileName, sep)
    ensures forall k: nat :: k < m ==> Candidate(parent, fileName, k, sep) != Candidate(parent, fileName, m, sep)
  {
    forall k: nat | k < m ensures Candidate(parent, fileName, k, sep) != Candidate(parent, fileName, m, sep) {
      if Candidate(parent, fileName, k, sep) == Candidate(parent, fileName, m, sep) {
        Paths.ResolveInjective(parent, Numbered(fileName, k), Numbered(fileName, m), sep);
        NumberedInjective(fileName, k, m);
      }
    }
  }

  /** x is the original path or the path for some number before the one tried last when nextNumber is next */
  ghost predicate WasTried(x: string, parent: string, fileName: string, nextNumber: nat, sep: char) {
    x == Paths.Resolve(parent, fileName, sep) ||
    (HasExtension(fileName) && exists k: nat :: k + 1 < nextNumber && x == Candidate(parent, fileName, k, sep))
  }

  /** One round of the search: the path just found to exist joins the tried paths, and the next one is new */
  lemma TriedStep(tried: set<string>, fullPath: string, parent: string, fileName: string, m: nat, sep: char)
    requires HasExtension(fileName) && m >= 2
    requires forall x :: x in tried ==> WasTried(x, parent, fileName, m, sep)
    requires fullPath == if m == 2 then Paths.Resolve(parent, fileName, sep) else Candidate(parent, fileName, m - 1, sep)
    ensures forall x :: x in tried + {fullPath} ==> WasTried(x, parent, fileName, m + 1, sep)
    ensures Candidate(parent, fileName, m, sep) !in tried + {fullPath}
  {
    CandidateFresh(parent, fileName, m, sep);
    forall x | x in tried + {fullPath} ensures WasTried(x, parent, fileName, m + 1, sep) {
      if x == fullPath && m > 2 {
        assert (m - 1) + 1 < m + 1 && x == Candidate(parent, fileName, m - 1, sep);
      }
    }
  }

  /** One round of the search: every number tried so far, the current one included, has an existing path */
  lemma TakenStep(parent: string, fileName: string, existing: set<string>, m: nat, sep: char, fullPath: string)
    requires HasExtension(fileName) && m >= 2
    requires m > 2 ==> forall k: nat :: 2 <= k < m - 1 ==> Candidate(parent, fileName, k, sep) in existing
    requires fullPath in existing
    requires m > 2 ==> fullPath == Candidate(parent, fileName, m - 1, sep)
    ensures forall k: nat :: 2 <= k < m ==> Candidate(parent, fileName, k, sep) in existing
  {
  }

  /** newFile is the original name or the name for nextNumber - 1, and every path tried before it exists */
  ghost predicate Numbering(parent: string, fileName: string, existing: set<string>, sep: char, newFile: string, nextNumber: nat) {
    && 2 <= nextNumber
    && (nextNumber == 2 ==> newFile == fileName)
    && (nextNumber > 2 ==> (HasExtension(fileName) && newFile == Numbered(fileName, nextNumber - 1)
         && Paths.Resolve(parent, fileName, sep) in existing
         && forall k: nat :: 2 <= k < nextNumber - 1 ==> Candidate(parent, fileName, k, sep) in existing))
  }

  /** tried holds only existing paths tried before newFile's, and not newFile's own */
  ghost predicate TriedOnly(parent: string, fileName: string, existing: set<string>, sep: char,
                            newFile: string, nextNumber: nat, tried: set<string>) {
    && 2 <= nextNumber
    && (nextNumber == 2 ==> tried == {})
    && tried <= existing && Paths.Resolve(parent, newFile, sep) !in tried
    && forall x :: x in tried ==> WasTried(x, parent, fileName, nextNumber, sep)
  }

  /** The state of the search before the next existence test */
  ghost predicate Searching(parent: string, fileName: string, existing: set<string>, sep: char,
                            newFile: string, nextNumber: nat, tried: set<string>) {
    Numbering(parent, fileName, existing, sep, newFile, nextNumber) &&
    TriedOnly(parent, fileName, existing, sep, newFile, nextNumber, tried)
  }

  /** An existing path moves the search to the next number */
  lemma NumberingStep(parent: string, fileName: string, existing: set<string>, sep: char, newFile: string, nextNumber: nat)
    requires Numbering(parent, fileName, existing, sep, newFile, nextNumber)
    requires HasExtension(fileName) && Paths.Resolve(parent, newFile, sep) in existing
    ensures Numbering(parent, fileName, existing, sep, Numbered(fileName, nextNumber), nextNumber + 1)
  {
    TakenStep(parent, fileName, existing, nextNumber, sep, Paths.Resolve(parent, newFile, sep));
    assert nextNumber + 1 - 1 == nextNumber;
  }

  /** An existing path joins the tried ones, leaving one existing path fewer untried */
  lemma TriedOnlyStep(parent: string, fileName: string, existing: set<string>, sep: char,
                      newFile: string, nextNumber: nat, tried: set<string>)
    requires HasExtension(fileName) && Paths.Resolve(parent, newFile, sep) in existing
    requires nextNumber == 2 ==> newFile == fileName
    requires nextNumber > 2 ==> newFile == Numbered(fileName, nextNumber - 1)
    requires TriedOnly(parent, fileName, existing, sep, newFile, nextNumber, tried)
    ensures TriedOnly(parent, fileName, existing, sep, Numbered(fileName, nextNumber), nextNumber + 1,
                      tried + {Paths.Resolve(parent, newFile, sep)})
  {
    var fullPath := Paths.Resolve(parent, newFile, sep);
    TriedStep(tried, fullPath, parent, fileName, nextNumber, sep);
    assert Paths.Resolve(parent, Numbered(fileName, nextNumber), sep) == Candidate(parent, fileName, nextNumber, sep);
  }

  /** Adding an untried existing path leaves fewer existing paths untried */
  lemma FewerUntried(existing: set<string>, tried: set<string>, fullPath: string)
    requires fullPath in existing && fullPath !in tried
    ensures |existing - (tried + {fullPath})| < |existing - tried|
  {
    assert existing - (tried + {fullPath}) == (existing - tried) - {fullPath};
  }

  /** When the search stops at a path that does not exist, that path is the original one or the first free numbered one */
  lemma SearchDone(parent: string, fileName: string, existing: set<string>, sep: char,
                   newFile: string, nextNumber: nat, tried: set<string>)
    requires Searching(parent, fileName, existing, sep, newFile, nextNumber, tried)
    requires Paths.Resolve(parent, newFile, sep) !in existing
    ensures Paths.Resolve(parent, fileName, sep) !in existing ==> newFile == fileName
    ensures Paths.Resolve(parent, fileName, sep) in existing ==> (HasExtension(fileName) &&
      exists n: nat :: 2 <= n && Paths.Resolve(parent, newFile, sep) == Candidate(parent, fileName, n, sep) &&
        forall k: nat :: 2 <= k < n ==> Candidate(parent, fileName, k, sep) in existing)
  {
    if nextNumber > 2 {
      assert Paths.Resolve(parent, newFile, sep) == Candidate(parent, fileName, nextNumber - 1, sep);
    }
  }

  /**
   * `getNonExistentPath(parentFolder, filename)`: the path itself when it does not exist,
   * otherwise `base (n).ext` for the smallest n >= 2 whose path does not exist. A name
   * without '.' whose path exists makes `substring` throw (None). The search ends because
   * every path it tries is a new member of the finite set of existing paths.
   */
  method GetNonExistentPath(parent: string, fileName: string, existing: set<string>, sep: char) returns (r: Option<string>)
    ensures r.None? <==> Paths.Resolve(parent, fileName, sep) in existing && !HasExtension(fileName)
    ensures r.Some? ==> r.value !in existing
    ensures Paths.Resolve(parent, fileName, sep) !in existing ==> r == Some(Paths.Resolve(parent, fileName, sep))
    ensures r.Some? && Paths.Resolve(parent, fileName, sep) in existing ==> (HasExtension(fileName) &&
      exists n: nat :: 2 <= n && r.value == Candidate(parent, fileName, n, sep) &&
        forall k: nat :: 2 <= k < n ==> Candidate(parent, fileName, k, sep) in existing)
  {
    var nextNumber: nat := 2;
    var newFile := fileName;
    var fullPath := Paths.Resolve(parent, newFile, sep);
    var found := fullPath in existing;
    ghost var tried: set<string> := {};
    while found
      invariant fullPath == Paths.Resolve(parent, newFile, sep) && found == (fullPath in existing)
      invariant Searching(parent, fileName, existing, sep, newFile, nextNumber, tried)
      decreases |existing - tried|
    {
      if Strings.LastIndexOf(fileName, '.') < 0 {
        return None;
      }
      NumberingStep(parent, fileName, existing, sep, newFile, nextNumber);
      TriedOnlyStep(parent, fileName, existing, sep, newFile, nextNumber, tried);
      FewerUntried(existing, tried, fullPath);
      tried := tried + {fullPath};
      newFile := Numbered(fileName, nextNumber);
      nextNumber := nextNumber + 1;
      fullPath := Paths.Resolve(parent, newFile, sep);
      found := fullPath in existing;
    }
    SearchDone(parent, fileName, existing, sep, newFile, nextNumber, tried);
    r := Some(fullPath);
  }

  /** The extensions `isNonEmptyTextFile` accepts, compared in lower case */
  const TextExtensions: set<string> := {"txt", "log", "ini", "rtf"}

  /** i is the index of the last '.' in s */
  predicate LastDot(s: string, i: int) {
    0 <= i < |s| && s[i] == '.' && forall j :: i < j < |s| ==> s[j] != '.'
  }

  /**
   * `isNonEmptyTextFile(path)` for a file of the given length (0 when it does not exist):
   * it holds iff the file is non-empty and the text after its last '.' is, lower-cased, one
   * of the text extensions
   */
  function IsNonEmptyTextFile(length: nat, fileName: string): (r: bool)
    ensures r <==> (length > 0 && exists i :: LastDot(fileName, i) && Strings.ToLower(fileName[i + 1..]) in TextExtensions)
  {
    if length > 0 then
      var lastIndex := Strings.LastIndexOf(fileName, '.');
      if lastIndex > -1 then
        assert LastDot(fileName, lastIndex);
        assert forall i :: LastDot(fileName, i) ==> i == lastIndex;
        Strings.ToLower(fileName[lastIndex + 1..]) in TextExtensions
      else
        assert forall i :: LastDot(fileName, i) ==> lastIndex >= i;
        false
    else false
  }

  /** A zero-length file or a name without '.' is never a text file */
  lemma IsNonEmptyTextFileRejects(length: nat, fileName: string)
    requires length == 0 || '.' !in fileName
    ensures !IsNonEmptyTextFile(length, fileName)
  {
    if length > 0 {
      forall i | 0 <= i < |fileName| ensures fileName[i] != '.' {
        assert fileName[i] in fileName;
      }
    }
  }

  /** The extension test ignores case */
  lemma IsNonEmptyTextFileUpperCase()
    ensures IsNonEmptyTextFile(12, "Notes.TXT")
  {
    assert LastDot("Notes.TXT", 5);
    assert Strings.ToLower("TXT") == "txt";
  }

  /** Only the text after the last '.' is looked at */
  lemma IsNonEmptyTextFileLastDot()
    ensures IsNonEmptyTextFile(1, "server.old.log")
    ensures !IsNonEmptyTextFile(1, "notes.txt.bak")
  {
    assert LastDot("server.old.log", 10);
    assert Strings.ToLower("log") == "log";
    var bak := "notes.txt.bak";
    assert LastDot(bak, 9);
    assert forall i :: LastDot(bak, i) ==> i == 9;
    assert Strings.ToLower("bak") == "bak";
  }

  /**
   * The command list of `createProcessBuilder(processPath)`: `java -jar` in front of a path
   * ending in ".jar", then the path and the launch flag
   */
  function LaunchCommands(processPath: string): (r: seq<string>)
    ensures |r| >= 2 && r[|r| - 2..] == [processPath, "--csds-launch"]
    ensures r[..|r| - 2] == ["java", "-jar"] <==> Strings.EndsWith(processPath, ".jar")
    ensures !Strings.EndsWith(processPath, ".jar") ==> |r| == 2
  {
    (if Strings.EndsWith(processPath, ".jar") then ["java", "-jar"] else []) + [processPath, "--csds-launch"]
  }
}
