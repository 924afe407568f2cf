/** The detection of CPU packages in src/hwinfo.c. */
module Topology {
  import opened Text

  /** A directory entry and what the files below it hold, None for a file that cannot be
      opened: the "online" flag and the "physical_package_id" of its topology. */
  datatype Entry = Entry(name: CString, dType: bv8, onlineFile: Option<CString>, packageFile: Option<CString>)

  const DT_LNK: bv8 := 10
  const PACKAGE_BUFFER_SIZE := 24

  /** fgets: the first line with its newline, cut at the size of the buffer; None at the end
      of the file. */
  function Fgets(content: CString, size: nat): (line: Option<string>)
    requires 1 < size
    ensures line.Some? ==> 0 < |line.value| < size
  {
    var n := Index(content, '\n');
    var line := if n < |content| then content[..n + 1] else content;
    if line == "" then None else if |line| < size then Some(line) else Some(line[..size - 1])
  }

  /** A bit test, so not only symbolic links pass it. */
  predicate Listed(e: Entry) { e.dType & DT_LNK != 0 && (e.name == "" || e.name[0] != '.') }

  /** A CPU whose flag cannot be read is reported as online. */
  predicate Online(e: Entry) {
    match e.onlineFile
    case None => true
    case Some(content) => var flag := Fgets(content, 2); flag.None? || flag.value[0] != '0'
  }

  predicate AllDecimal(s: string) { forall i :: 0 <= i < |s| ==> '0' <= s[i] <= '9' }

  /** The regular expression ^cpu([0-9]+)$. */
  function CpuId(name: CString): Option<string> {
    if |name| > 3 && name[..3] == "cpu" && AllDecimal(name[3..]) then Some(name[3..]) else None
  }

  /** The line without its last character, which is the newline when the line is whole. */
  function PackageId(e: Entry): Option<string> {
    match e.packageFile
    case None => None
    case Some(content) =>
      match Fgets(content, PACKAGE_BUFFER_SIZE)
      case None => None
      case Some(line) => Some(line[..|line| - 1])
  }

  predicate Counted(e: Entry) { Listed(e) && Online(e) }

  predicate Readable(e: Entry) { CpuId(e.name).Some? && PackageId(e).Some? }

  // ----- What the files of a CPU say

  /** A CPU is ignored exactly when its online file starts with '0'. */
  lemma OfflineExactly(e: Entry)
    ensures !Online(e) <==> e.onlineFile.Some? && e.onlineFile.value != "" && e.onlineFile.value[0] == '0'
  {}

  /** The bit test lets symbolic links pass, and also character and block devices, regular files and
      sockets, but no directory, no pipe, and no entry whose type the file system does not tell. */
  lemma TypesListed(e: Entry)
    requires e.name != "" && e.name[0] != '.'
    ensures e.dType in {2, 6, 8, 10, 12} ==> Listed(e)
    ensures e.dType in {0, 1, 4} ==> !Listed(e)
  {
    assert (2 as bv8) & 10 != 0 && (6 as bv8) & 10 != 0 && (8 as bv8) & 10 != 0;
    assert (10 as bv8) & 10 != 0 && (12 as bv8) & 10 != 0;
    assert (0 as bv8) & 10 == 0 && (1 as bv8) & 10 == 0 && (4 as bv8) & 10 == 0;
  }

  /** An entry name has a CPU id exactly when it is "cpu" and that id, which is decimal. */
  lemma CpuIdExactly(name: CString, id: string)
    ensures CpuId(name) == Some(id) <==> name == "cpu" + id && id != "" && forall c :: c in id ==> '0' <= c <= '9'
  {
    if |name| > 3 && name[..3] == "cpu" {
      assert name == "cpu" + name[3..];
    }
    if name == "cpu" + id {
      assert name[..3] == "cpu" && name[3..] == id;
      assert forall k :: 0 <= k < |id| ==> id[k] in id;
    }
  }

  /** A package id on a line of its own is read whole, when it has at most 22 characters; otherwise it
      is cut there. Without a newline its last character is lost. */
  lemma PackageIdReads(e: Entry, id: string, rest: string)
    requires '\n' !in id && e.packageFile.Some?
    requires e.packageFile.value == id + "\n" + rest || (e.packageFile.value == id && id != "")
    ensures PackageId(e) ==
      if |id| > 22 then Some(id[..22]) else if e.packageFile.value == id then Some(id[..|id| - 1]) else Some(id)
  {
    var content := e.packageFile.value;
    if content == id {
      LineIs(id, id);
    } else {
      IndexIsFirst(content, '\n', |id|);
      assert content[..|id| + 1] == id + "\n";
      LineIs(id, id + "\n");
    }
  }

  /** A line cut at the size of the buffer, without its last character. */
  lemma LineIs(id: string, line: string)
    requires line == id || line == id + "\n"
    ensures |line| >= 24 ==> |id| > 22 && line[..23][..22] == id[..22]
    ensures 0 < |line| < 24 ==> line[..|line| - 1] == if line == id then id[..|id| - 1] else id
  {}

  /** There is no package id exactly when the file cannot be read or is empty. */
  lemma PackageIdMissing(e: Entry)
    ensures PackageId(e).None? <==> e.packageFile.None? || e.packageFile.value == ""
  {}

  type Pkgs = map<string, seq<string>>

  function CpusOf(pkgs: Pkgs, pkg: string): seq<string> { if pkg in pkgs then pkgs[pkg] else [] }

  /** The packages after the first `n` entries, and whether the scan got that far. */
  function Scan(entries: seq<Entry>, n: nat): (r: (bool, Pkgs))
    requires n <= |entries|
  {
    if n == 0 then (true, map[])
    else
      var (ok, pkgs) := Scan(entries, n - 1);
      var e := entries[n - 1];
      if !ok || !Counted(e) then (ok, pkgs)
      else if !Readable(e) then (false, pkgs)
      else
        var pkg := PackageId(e).value;
        (true, pkgs[pkg := CpusOf(pkgs, pkg) + [CpuId(e.name).value]])
  }

  // ----- What a detection finds

  /** The entries among the first `n` that are online CPUs of a package, in scan order. */
  function Members(entries: seq<Entry>, n: nat, pkg: string): seq<nat>
    requires n <= |entries|
  {
    if n == 0 then []
    else if MemberOf(entries[n - 1], pkg) then Members(entries, n - 1, pkg) + [n - 1]
    else Members(entries, n - 1, pkg)
  }

  predicate MemberOf(e: Entry, pkg: string) { Counted(e) && PackageId(e) == Some(pkg) && Readable(e) }

  ghost predicate Increasing(m: seq<nat>) { forall i, j :: 0 <= i < j < |m| ==> m[i] < m[j] }

  /** These are the entries among the first `n` that are members, once each and in order. */
  ghost predicate ExactlyMembers(entries: seq<Entry>, n: nat, pkg: string, m: seq<nat>)
    requires n <= |entries|
  {
    Increasing(m) && forall k: nat {:trigger k in m} :: k in m <==> k < n && MemberOf(entries[k], pkg)
  }

  lemma OneMember(entries: seq<Entry>, n: nat, pkg: string, m: seq<nat>)
    requires n < |entries| && ExactlyMembers(entries, n, pkg, m) && MemberOf(entries[n], pkg)
    ensures ExactlyMembers(entries, n + 1, pkg, m + [n])
  {
    var more := m + [n];
    forall i, j | 0 <= i < j < |more|
      ensures more[i] < more[j]
    {
      assert m[i] in m;
    }
  }

  /** The members are exactly those entries, once each and in order. */
  lemma {:induction false} MembersAre(entries: seq<Entry>, n: nat, pkg: string)
    requires n <= |entries|
    ensures ExactlyMembers(entries, n, pkg, Members(entries, n, pkg))
  {
    if n > 0 {
      MembersAre(entries, n - 1, pkg);
      if MemberOf(entries[n - 1], pkg) {
        OneMember(entries, n - 1, pkg, Members(entries, n - 1, pkg));
      }
    }
  }

  /** A list of CPU ids is that of these entries, position by position. */
  ghost predicate ListsMembers(entries: seq<Entry>, ids: seq<string>, members: seq<nat>) {
    && |ids| == |members|
    && forall i :: 0 <= i < |ids| ==> members[i] < |entries| && CpuId(entries[members[i]].name) == Some(ids[i])
  }

  lemma {:induction false} ScanListsMembers(entries: seq<Entry>, n: nat, pkg: string)
    requires n <= |entries| && Scan(entries, n).0
    ensures pkg in Scan(entries, n).1 <==> Members(entries, n, pkg) != []
    ensures ListsMembers(entries, CpusOf(Scan(entries, n).1, pkg), Members(entries, n, pkg))
  {
    if n > 0 {
      ScanNext(entries, n, pkg);
      ScanListsMembers(entries, n - 1, pkg);
      if MemberOf(entries[n - 1], pkg) {
        ListsOneMore(entries, CpusOf(Scan(entries, n - 1).1, pkg), Members(entries, n - 1, pkg), n - 1);
      }
    }
  }

  lemma ListsOneMore(entries: seq<Entry>, ids: seq<string>, members: seq<nat>, k: nat)
    requires k < |entries| && CpuId(entries[k].name).Some? && ListsMembers(entries, ids, members)
    ensures ListsMembers(entries, ids + [CpuId(entries[k].name).value], members + [k])
  {}

  /** What one entry adds to the list of a package. */
  lemma ScanNext(entries: seq<Entry>, n: nat, pkg: string)
    requires 0 < n <= |entries| && Scan(entries, n).0
    ensures Scan(entries, n - 1).0
    ensures var before, after := Scan(entries, n - 1).1, Scan(entries, n).1;
      if MemberOf(entries[n - 1], pkg)
      then pkg in after && CpusOf(after, pkg) == CpusOf(before, pkg) + [CpuId(entries[n - 1].name).value]
      else (pkg in after <==> pkg in before) && CpusOf(after, pkg) == CpusOf(before, pkg)
  {}

  ghost predicate DistinctNames(entries: seq<Entry>) {
    forall i, j :: 0 <= i < j < |entries| ==> entries[i].name != entries[j].name
  }

  lemma CpuIdInjective(a: CString, b: CString)
    requires CpuId(a).Some? && CpuId(a) == CpuId(b)
    ensures a == b
  {
    assert a == a[..3] + a[3..] && b == b[..3] + b[3..];
  }

  /** A detection succeeds exactly when the id and the package of every online CPU can be read. */
  lemma {:induction false} SucceedsWhenReadable(entries: seq<Entry>, n: nat)
    requires n <= |entries|
    ensures Scan(entries, n).0 <==> forall k :: 0 <= k < n && Counted(entries[k]) ==> Readable(entries[k])
  {
    if n > 0 {
      SucceedsWhenReadable(entries, n - 1);
    }
  }

  /** A successful detection partitions the online CPUs: each is in the list of its own package
      and in no other place, the lists follow the order of the scan, no list is empty, and
      nothing else is listed. */
  lemma DetectionPartitions(entries: seq<Entry>)
    requires DistinctNames(entries) && Scan(entries, |entries|).0
    ensures var pkgs := Scan(entries, |entries|).1;
      && (forall pkg :: pkg in pkgs ==> pkgs[pkg] != [])
      && (forall k :: 0 <= k < |entries| && Counted(entries[k]) ==> IsIn(pkgs, entries[k]))
      && (forall pkg, i :: pkg in pkgs && 0 <= i < |pkgs[pkg]| ==> ComesFrom(entries, pkgs[pkg][i], pkg))
      && (forall p, i, q, j | p in pkgs && q in pkgs && 0 <= i < |pkgs[p]| && 0 <= j < |pkgs[q]| ::
            pkgs[p][i] == pkgs[q][j] ==> p == q && i == j)
  {
    var n, pkgs := |entries|, Scan(entries, |entries|).1;
    forall pkg | pkg in pkgs
      ensures pkgs[pkg] != []
    {
      ScanListsMembers(entries, n, pkg);
    }
    forall k | 0 <= k < n && Counted(entries[k])
      ensures IsIn(pkgs, entries[k])
    {
      EntryIsIn(entries, k);
    }
    forall pkg, i | pkg in pkgs && 0 <= i < |pkgs[pkg]|
      ensures ComesFrom(entries, pkgs[pkg][i], pkg)
    {
      var k := EntryAt(entries, pkg, i);
    }
    forall p, i, q, j | p in pkgs && q in pkgs && 0 <= i < |pkgs[p]| && 0 <= j < |pkgs[q]| && pkgs[p][i] == pkgs[q][j]
      ensures p == q && i == j
    {
      SameCpu(entries, p, i, q, j);
    }
  }

  ghost predicate IsIn(pkgs: Pkgs, e: Entry) {
    Readable(e) && PackageId(e).value in pkgs && CpuId(e.name).value in pkgs[PackageId(e).value]
  }

  ghost predicate ComesFrom(entries: seq<Entry>, id: string, pkg: string) {
    exists k :: 0 <= k < |entries| && Counted(entries[k])
      && CpuId(entries[k].name) == Some(id) && PackageId(entries[k]) == Some(pkg)
  }

  lemma EntryIsIn(entries: seq<Entry>, k: nat)
    requires k < |entries| && Counted(entries[k]) && Scan(entries, |entries|).0
    ensures IsIn(Scan(entries, |entries|).1, entries[k])
  {
    var n, pkgs := |entries|, Scan(entries, |entries|).1;
    SucceedsWhenReadable(entries, n);
    var pkg := PackageId(entries[k]).value;
    ScanListsMembers(entries, n, pkg);
    MembersAre(entries, n, pkg);
    assert k in Members(entries, n, pkg);
    var i :| 0 <= i < |Members(entries, n, pkg)| && Members(entries, n, pkg)[i] == k;
    assert CpusOf(pkgs, pkg)[i] == CpuId(entries[k].name).value;
  }

  /** The entry behind a position of a list. */
  lemma EntryAt(entries: seq<Entry>, pkg: string, i: nat) returns (k: nat)
    requires Scan(entries, |entries|).0
    requires pkg in Scan(entries, |entries|).1 && i < |Scan(entries, |entries|).1[pkg]|
    ensures i < |Members(entries, |entries|, pkg)| && k == Members(entries, |entries|, pkg)[i]
    ensures k < |entries| && Counted(entries[k]) && PackageId(entries[k]) == Some(pkg)
    ensures CpuId(entries[k].name) == Some(Scan(entries, |entries|).1[pkg][i])
  {
    ScanListsMembers(entries, |entries|, pkg);
    MembersAre(entries, |entries|, pkg);
    k := Members(entries, |entries|, pkg)[i];
    assert k in Members(entries, |entries|, pkg);
  }

  lemma SameCpu(entries: seq<Entry>, p: string, i: nat, q: string, j: nat)
    requires DistinctNames(entries) && Scan(entries, |entries|).0
    requires var pkgs := Scan(entries, |entries|).1;
      p in pkgs && q in pkgs && i < |pkgs[p]| && j < |pkgs[q]| && pkgs[p][i] == pkgs[q][j]
    ensures p == q && i == j
  {
    var a := EntryAt(entries, p, i);
    var b := EntryAt(entries, q, j);
    CpuIdInjective(entries[a].name, entries[b].name);
    assert a == b;
    MembersAre(entries, |entries|, p);
  }

  lemma NotOffline(entries: seq<Entry>, k: nat, pkg: string, i: nat)
    requires DistinctNames(entries) && Scan(entries, |entries|).0
    requires k < |entries| && !Counted(entries[k]) && CpuId(entries[k].name).Some?
    requires pkg in Scan(entries, |entries|).1 && i < |Scan(entries, |entries|).1[pkg]|
    ensures Scan(entries, |entries|).1[pkg][i] != CpuId(entries[k].name).value
  {
    var e := EntryAt(entries, pkg, i);
    assert entries[e].name != entries[k].name;
    if CpuId(entries[e].name) == CpuId(entries[k].name) {
      CpuIdInjective(entries[e].name, entries[k].name);
    }
  }

  /** A CPU that is offline is listed nowhere. */
  lemma OfflineIsNowhere(entries: seq<Entry>, k: nat, pkg: string)
    requires DistinctNames(entries) && Scan(entries, |entries|).0
    requires k < |entries| && !Counted(entries[k]) && CpuId(entries[k].name).Some?
    ensures CpuId(entries[k].name).value !in CpusOf(Scan(entries, |entries|).1, pkg)
  {
    var pkgs := Scan(entries, |entries|).1;
    if pkg in pkgs {
      forall i | 0 <= i < |pkgs[pkg]|
        ensures pkgs[pkg][i] != CpuId(entries[k].name).value
      {
        NotOffline(entries, k, pkg, i);
      }
    }
  }

  // ----- The scan in place

  class Hwinfo {
    var pkgs: Pkgs

    constructor ()
      ensures pkgs == map[]
    {
      pkgs := map[];
    }

    /** do_packages_detection; None for a directory that cannot be opened. */
    method DoPackagesDetection(dir: Option<seq<Entry>>) returns (ret: int)
      requires pkgs == map[]
      modifies this
      ensures ret == 0 || ret == -1
      ensures dir.None? ==> ret == -1 && pkgs == map[]
      ensures dir.Some? ==> (ret == 0, pkgs) == Scan(dir.value, |dir.value|)
    {
      if dir.None? {
        return -1;
      }
      var entries := dir.value;
      var n := 0;
      while n < |entries|
        invariant n <= |entries| && Scan(entries, n) == (true, pkgs)
      {
        var entry := entries[n];
        n := n + 1;
        if Listed(entry) {
          if !Online(entry) {
            continue;
          }
          var cpuId, pkgId := CpuId(entry.name), PackageId(entry);
          if cpuId.None? || pkgId.None? {
            ScanFails(entries, n, |entries|);
            return -1;
          }
          ghost var before := pkgs;
          if pkgId.value !in pkgs {
            pkgs := pkgs[pkgId.value := []];
          }
          pkgs := pkgs[pkgId.value := pkgs[pkgId.value] + [cpuId.value]];
          assert pkgs == before[pkgId.value := CpusOf(before, pkgId.value) + [cpuId.value]];
        }
      }
      return 0;
    }
  }

  lemma {:induction false} ScanFails(entries: seq<Entry>, i: nat, n: nat)
    requires i <= n <= |entries| && !Scan(entries, i).0
    ensures Scan(entries, n) == Scan(entries, i)
  {
    if i < n {
      ScanFails(entries, i, n - 1);
    }
  }
}
