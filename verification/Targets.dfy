/** Cgroup paths and the targets they name: src/target.c, src/target_docker.c and
    src/target_kubernetes.c. */
module Targets {
  import opened Text

  // ----- Searching a path

  predicate OccursAt(s: string, part: string, i: nat) { i + |part| <= |s| && s[i..i + |part|] == part }

  /** strstr finds something. */
  predicate Contains(s: string, part: string) { exists i :: 0 <= i <= |s| && OccursAt(s, part, i) }

  /** The first index from `i` to `n` that satisfies a predicate. */
  function First(p: nat -> bool, i: nat, n: nat): (r: Option<nat>)
    ensures r.Some? ==> i <= r.value <= n && p(r.value) && forall j :: i <= j < r.value ==> !p(j)
    ensures r.None? ==> forall j :: i <= j <= n ==> !p(j)
    decreases n + 1 - i
  {
    if i > n then None else if p(i) then Some(i) else First(p, i + 1, n)
  }

  predicate IsHex(c: char) { '0' <= c <= '9' || 'a' <= c <= 'f' }

  predicate IsAlnum(c: char) { '0' <= c <= '9' || 'a' <= c <= 'z' || 'A' <= c <= 'Z' }

  predicate IsNameChar(c: char) { IsAlnum(c) || c == '.' || c == '-' }

  const ID_LENGTH := 64

  /** A container id: [a-f0-9]{64}. */
  predicate IsId(id: string) { |id| == ID_LENGTH && forall k :: 0 <= k < |id| ==> IsHex(id[k]) }

  /** An id has 64 characters, each of them one of these. */
  lemma IdExactly(id: string)
    ensures IsId(id) <==> |id| == 64 && forall c :: c in id ==> c in "0123456789abcdef"
  {
    if IsId(id) {
      forall c | c in id
        ensures c in "0123456789abcdef"
      {
        DigitIsListed(c);
      }
    }
    assert forall k :: 0 <= k < |"0123456789abcdef"| ==> IsHex("0123456789abcdef"[k]);
    if forall c :: c in id ==> c in "0123456789abcdef" {
      assert forall k :: 0 <= k < |id| ==> id[k] in "0123456789abcdef";
    }
  }

  lemma DigitIsListed(c: char)
    requires IsHex(c)
    ensures c in "0123456789abcdef"
  {
    var digits := "0123456789abcdef";
    var k := if c <= '9' then c as nat - '0' as nat else c as nat - 'a' as nat + 10;
    assert digits[k] == c;
  }

  function ConfigPath(id: string): string { "/var/lib/docker/containers/" + id + "/config.v2.json" }

  const PATH_MAX := 4096

  /** The path is never cut by the buffer it is printed in, and gives the id back. */
  lemma ConfigPathHoldsId(id: string)
    requires IsId(id)
    ensures |ConfigPath(id)| < PATH_MAX && ConfigPath(id)[27..27 + ID_LENGTH] == id
  {
    assert |"/var/lib/docker/containers/"| == 27;
  }

  // ----- Docker: perf_event/docker/([a-f0-9]{64})$

  const DOCKER_PREFIX: string := "perf_event/docker/"

  /** The expression matches from `i`; with REG_NEWLINE, $ also matches before a newline. */
  predicate DockerAt(s: string, i: nat) {
    var at := i + |DOCKER_PREFIX|;
    && OccursAt(s, DOCKER_PREFIX, i)
    && at + ID_LENGTH <= |s| && IsId(s[at..at + ID_LENGTH])
    && (at + ID_LENGTH == |s| || s[at + ID_LENGTH] == '\n')
  }

  function DockerIdAt(s: string, i: nat): string
    requires DockerAt(s, i)
  {
    s[i + |DOCKER_PREFIX|..i + |DOCKER_PREFIX| + ID_LENGTH]
  }

  /** target_docker_validate. */
  ghost predicate DockerValid(path: string) { exists i :: DockerAt(path, i) }

  /** The leftmost match, as regexec reports it. */
  function FindDocker(s: string): (r: Option<nat>)
    ensures r.Some? ==> DockerAt(s, r.value) && forall j :: 0 <= j < r.value ==> !DockerAt(s, j)
    ensures r.None? ==> forall j :: 0 <= j <= |s| ==> !DockerAt(s, j)
  {
    var matches := (j: nat) => DockerAt(s, j);
    assert forall j: nat {:trigger DockerAt(s, j)} :: matches(j) == DockerAt(s, j);
    First(matches, 0, |s|)
  }

  /** The id that build_container_config_path puts in the path. */
  function DockerId(path: string): Option<string> {
    match FindDocker(path)
    case None => None
    case Some(i) => Some(DockerIdAt(path, i))
  }

  /** Validation succeeds exactly when an id is extracted. */
  lemma DockerValidates(path: string)
    ensures DockerValid(path) <==> DockerId(path).Some?
    ensures DockerId(path).Some? ==> IsId(DockerId(path).value)
  {}

  /** On a path of one line there is only one id to extract, whatever comes before it. */
  lemma DockerRoundTrip(before: string, id: string)
    requires IsId(id) && '\n' !in before
    ensures DockerId(before + "perf_event/docker/" + id) == Some(id)
  {
    var path := before + DOCKER_PREFIX + id;
    assert path[|before|..|before| + |DOCKER_PREFIX|] == DOCKER_PREFIX;
    assert path[|before| + |DOCKER_PREFIX|..] == id;
    assert DockerAt(path, |before|);
    OneLine(before, id);
    var i := FindDocker(path).value;
    var end := i + |DOCKER_PREFIX| + ID_LENGTH;
    NoNewline(path, i);
    assert end == |path| && i == |before|;
    assert DockerIdAt(path, i) == path[|before| + |DOCKER_PREFIX|..];
  }

  lemma NoNewline(path: string, i: nat)
    requires '\n' !in path && DockerAt(path, i)
    ensures i + |DOCKER_PREFIX| + ID_LENGTH == |path|
  {}

  lemma OneLine(before: string, id: string)
    requires IsId(id) && '\n' !in before
    ensures '\n' !in before + DOCKER_PREFIX + id
  {
    assert '\n' !in DOCKER_PREFIX;
    assert '\n' !in id;
  }

  lemma OccursWithin(before: string, s: string, after: string, part: string, i: nat)
    requires i + |part| <= |s|
    ensures OccursAt(before + s + after, part, |before| + i) <==> OccursAt(s, part, i)
  {
    assert (before + s + after)[|before| + i..|before| + i + |part|] == s[i..i + |part|];
  }

  lemma NoNewlineInMatch(s: string, i: nat, k: nat)
    requires DockerAt(s, i) && i <= k < i + |DOCKER_PREFIX| + ID_LENGTH
    ensures s[k] != '\n'
  {
    var at := i + |DOCKER_PREFIX|;
    if k < at {
      assert s[k] == s[i..at][k - i] == DOCKER_PREFIX[k - i];
    } else {
      assert s[k] == s[at..at + ID_LENGTH][k - at];
    }
  }

  /** Matches never reach over the end of a line. */
  lemma MatchOnFirst(a: string, rest: string, i: nat)
    requires i <= |a|
    ensures DockerAt(a + "\n" + rest, i) <==> DockerAt(a, i)
    ensures DockerAt(a, i) ==> DockerIdAt(a + "\n" + rest, i) == DockerIdAt(a, i)
  {
    var s, n := a + "\n" + rest, |DOCKER_PREFIX| + ID_LENGTH;
    assert s[|a|] == '\n';
    if DockerAt(s, i) && |a| < i + n {
      NoNewlineInMatch(s, i, |a|);
    } else if i + n <= |a| {
      OccursWithin("", a, "\n" + rest, DOCKER_PREFIX, i);
      assert "" + a + ("\n" + rest) == s;
      assert s[i + |DOCKER_PREFIX|..i + n] == a[i + |DOCKER_PREFIX|..i + n];
    }
  }

  lemma MatchOnRest(a: string, rest: string, i: nat)
    ensures DockerAt(a + "\n" + rest, |a| + 1 + i) <==> DockerAt(rest, i)
    ensures DockerAt(rest, i) ==> DockerIdAt(a + "\n" + rest, |a| + 1 + i) == DockerIdAt(rest, i)
  {
    var s, n, m := a + "\n" + rest, |DOCKER_PREFIX| + ID_LENGTH, |a| + 1;
    if i + n <= |rest| {
      OccursWithin(a + "\n", rest, "", DOCKER_PREFIX, i);
      assert a + "\n" + rest + "" == s;
      assert s[m + i + |DOCKER_PREFIX|..m + i + n] == rest[i + |DOCKER_PREFIX|..i + n];
    }
  }

  /** On several lines, the first line that ends in a match decides. */
  lemma DockerFirstLine(a: string, rest: string)
    ensures DockerId(a + "\n" + rest) == if DockerId(a).Some? then DockerId(a) else DockerId(rest)
  {
    if DockerId(a).Some? {
      FirstLineDecides(a, rest);
    } else {
      RestDecides(a, rest);
    }
  }

  lemma FirstLineDecides(a: string, rest: string)
    requires DockerId(a).Some?
    ensures DockerId(a + "\n" + rest) == DockerId(a)
  {
    MatchOnFirst(a, rest, FindDocker(a).value);
    MatchOnFirst(a, rest, FindDocker(a + "\n" + rest).value);
  }

  lemma RestDecides(a: string, rest: string)
    requires DockerId(a).None?
    ensures DockerId(a + "\n" + rest) == DockerId(rest)
  {
    if FindDocker(a + "\n" + rest).Some? {
      FoundInRest(a, rest);
    } else if FindDocker(rest).Some? {
      MatchOnRest(a, rest, FindDocker(rest).value);
    }
  }

  lemma FoundInRest(a: string, rest: string)
    requires DockerId(a).None? && FindDocker(a + "\n" + rest).Some?
    ensures DockerId(a + "\n" + rest) == DockerId(rest)
  {
    var found := FindDocker(a + "\n" + rest).value;
    if found <= |a| {
      MatchOnFirst(a, rest, found);
    } else {
      MatchOnRest(a, rest, found - |a| - 1);
      MatchOnRest(a, rest, FindDocker(rest).value);
    }
  }

  // ----- Kubernetes: perf_event/kubepods/(besteffort/|burstable/|)(pod...)/([a-f0-9]{64})(/...|)

  const KUBEPODS_PREFIX: string := "perf_event/kubepods/"

  /** What the expression captures: the class of service, the pod and the container. */
  datatype Container = Container(qos: string, pod: string, id: string)

  predicate IsQos(qos: string) { qos == "besteffort/" || qos == "burstable/" || qos == "" }

  /** pod[a-zA-Z0-9][a-zA-Z0-9.-]+ */
  predicate IsPod(pod: string) {
    |pod| >= 5 && pod[..3] == "pod" && IsAlnum(pod[3]) && forall k :: 4 <= k < |pod| ==> IsNameChar(pod[k])
  }

  /** Which pods these are, character by character. */
  lemma PodExactly(pod: string)
    ensures IsPod(pod) <==>
      && |pod| >= 5 && pod[0] == 'p' && pod[1] == 'o' && pod[2] == 'd'
      && ('0' <= pod[3] <= '9' || 'a' <= pod[3] <= 'z' || 'A' <= pod[3] <= 'Z')
      && forall c :: c in pod[4..] ==> '0' <= c <= '9' || 'a' <= c <= 'z' || 'A' <= c <= 'Z' || c == '.' || c == '-'
  {
    if |pod| >= 5 {
      var rest := pod[4..];
      assert pod[..3] == [pod[0], pod[1], pod[2]];
      assert forall i :: 0 <= i < |rest| ==> rest[i] == pod[i + 4] && rest[i] in rest;
      assert forall k :: 4 <= k < |pod| ==> pod[k] == rest[k - 4];
    }
  }

  predicate IsContainer(c: Container) { IsQos(c.qos) && IsPod(c.pod) && IsId(c.id) }

  function Spelled(c: Container): string { KUBEPODS_PREFIX + c.qos + c.pod + "/" + c.id }

  /** The expression matches from `i` with these captures. The last group, for what follows the
      id, matches the empty string everywhere. */
  ghost predicate KubernetesAt(s: string, i: nat, c: Container) {
    IsContainer(c) && OccursAt(s, Spelled(c), i)
  }

  /** target_kubernetes_validate. */
  ghost predicate KubernetesValid(path: string) { exists i, c :: KubernetesAt(path, i, c) }

  function QosAt(s: string, i: nat): (qos: string)
    ensures IsQos(qos)
  {
    if OccursAt(s, "besteffort/", i) then "besteffort/"
    else if OccursAt(s, "burstable/", i) then "burstable/"
    else ""
  }

  /** Reading the pod and the container after a class of service. */
  function ParsePod(s: string, at: nat, qos: string): Option<Container> {
    if at > |s| then None
    else
      var slash := at + Index(s[at..], '/');
      var pod := s[at..slash];
      if !IsPod(pod) || slash + 1 + ID_LENGTH > |s| || !IsId(s[slash + 1..slash + 1 + ID_LENGTH]) then None
      else Some(Container(qos, pod, s[slash + 1..slash + 1 + ID_LENGTH]))
  }

  /** Reading the captures, which start at `at`. */
  function ParseCaptures(s: string, at: nat): Option<Container> {
    ParsePod(s, at + |QosAt(s, at)|, QosAt(s, at))
  }

  /** Reading a whole match from `i`. */
  function ParseAt(s: string, i: nat): Option<Container> {
    if OccursAt(s, KUBEPODS_PREFIX, i) then ParseCaptures(s, i + |KUBEPODS_PREFIX|) else None
  }

  lemma PodHasNoSlash(pod: string)
    requires IsPod(pod)
    ensures '/' !in pod && '_' !in pod
  {
    forall k | 0 <= k < |pod|
      ensures pod[k] != '/' && pod[k] != '_'
    {
      if k < 3 {
        assert pod[k] == pod[..3][k];
      }
    }
  }

  lemma OccursSplit(s: string, a: string, b: string, i: nat)
    ensures OccursAt(s, a + b, i) <==> OccursAt(s, a, i) && OccursAt(s, b, i + |a|)
  {
    if i + |a| + |b| <= |s| {
      var whole := s[i..i + |a + b|];
      assert whole == s[i..i + |a|] + s[i + |a|..i + |a| + |b|];
      assert whole[..|a|] == s[i..i + |a|] && whole[|a|..] == s[i + |a|..i + |a| + |b|];
      assert (a + b)[..|a|] == a && (a + b)[|a|..] == b;
    }
  }

  /** What is captured, one piece after the other. */
  predicate CapturesAt(s: string, at: nat, c: Container) {
    && OccursAt(s, c.qos, at)
    && OccursAt(s, c.pod, at + |c.qos|)
    && OccursAt(s, "/", at + |c.qos| + |c.pod|)
    && OccursAt(s, c.id, at + |c.qos| + |c.pod| + 1)
  }

  /** A spelled container is its pieces, one after the other. */
  lemma Pieces(s: string, i: nat, c: Container)
    ensures OccursAt(s, Spelled(c), i) <==>
      OccursAt(s, KUBEPODS_PREFIX, i) && CapturesAt(s, i + |KUBEPODS_PREFIX|, c)
  {
    OccursSplit(s, KUBEPODS_PREFIX + c.qos + c.pod + "/", c.id, i);
    OccursSplit(s, KUBEPODS_PREFIX + c.qos + c.pod, "/", i);
    OccursSplit(s, KUBEPODS_PREFIX + c.qos, c.pod, i);
    OccursSplit(s, KUBEPODS_PREFIX, c.qos, i);
  }

  lemma QosOccurs(s: string, at: nat)
    requires at + |QosAt(s, at)| <= |s|
    ensures OccursAt(s, QosAt(s, at), at)
  {}

  lemma PodOccurs(s: string, at: nat, qos: string, c: Container)
    requires ParsePod(s, at, qos) == Some(c)
    ensures at <= |s| && c.qos == qos && IsPod(c.pod) && IsId(c.id)
    ensures OccursAt(s, c.pod, at) && OccursAt(s, "/", at + |c.pod|) && OccursAt(s, c.id, at + |c.pod| + 1)
  {
    var slash := at + Index(s[at..], '/');
    assert s[at..][Index(s[at..], '/')] == s[slash];
    assert s[slash..slash + 1] == [s[slash]];
  }

  lemma AfterQos(s: string, at: nat, qos: string, c: Container)
    requires IsQos(qos) && ParsePod(s, at + |qos|, qos) == Some(c)
    requires at + |qos| <= |s| ==> OccursAt(s, qos, at)
    ensures IsContainer(c) && CapturesAt(s, at, c)
  {
    PodOccurs(s, at + |qos|, qos, c);
  }

  lemma CapturesOccur(s: string, at: nat, c: Container)
    requires ParseCaptures(s, at) == Some(c)
    ensures IsContainer(c) && CapturesAt(s, at, c)
  {
    if at + |QosAt(s, at)| <= |s| {
      QosOccurs(s, at);
    }
    AfterQos(s, at, QosAt(s, at), c);
  }

  lemma PodIsRead(s: string, at: nat, c: Container)
    requires IsPod(c.pod) && IsId(c.id)
    requires OccursAt(s, c.pod, at) && OccursAt(s, "/", at + |c.pod|) && OccursAt(s, c.id, at + |c.pod| + 1)
    ensures ParsePod(s, at, c.qos) == Some(c)
  {
    PodEndsAtSlash(s, at, c.pod);
    var slash := at + |c.pod|;
    assert s[at..slash] == c.pod && s[slash + 1..slash + 1 + ID_LENGTH] == c.id;
  }

  lemma CapturesAreRead(s: string, at: nat, c: Container)
    requires IsContainer(c) && CapturesAt(s, at, c)
    ensures ParseCaptures(s, at) == Some(c)
  {
    QosIsRead(s, at, c);
    PodIsRead(s, at + |c.qos|, c);
  }

  lemma ParseIsSound(s: string, i: nat)
    requires ParseAt(s, i).Some?
    ensures KubernetesAt(s, i, ParseAt(s, i).value)
  {
    CapturesOccur(s, i + |KUBEPODS_PREFIX|, ParseAt(s, i).value);
    Pieces(s, i, ParseAt(s, i).value);
  }

  /** From a given start the grammar is unambiguous: the captures are what ParseAt reads. */
  lemma ParseIsComplete(s: string, i: nat, c: Container)
    requires KubernetesAt(s, i, c)
    ensures ParseAt(s, i) == Some(c)
  {
    Pieces(s, i, c);
    CapturesAreRead(s, i + |KUBEPODS_PREFIX|, c);
  }

  lemma PodEndsAtSlash(s: string, at: nat, pod: string)
    requires IsPod(pod) && OccursAt(s, pod, at) && OccursAt(s, "/", at + |pod|)
    ensures Index(s[at..], '/') == |pod|
  {
    PodHasNoSlash(pod);
    var rest := s[at..];
    forall k | 0 <= k < |pod|
      ensures rest[k] != '/'
    {
      assert rest[k] == s[at..at + |pod|][k];
    }
    assert rest[|pod|] == s[at + |pod|..at + |pod| + 1][0];
    IndexIsFirst(rest, '/', |pod|);
  }

  /** The first letter after the prefix tells the classes of service and the pod apart. */
  lemma QosIsRead(s: string, at: nat, c: Container)
    requires IsQos(c.qos) && IsPod(c.pod)
    requires OccursAt(s, c.qos, at) && OccursAt(s, c.pod, at + |c.qos|)
    ensures QosAt(s, at) == c.qos
  {
    if c.qos == "" {
      assert s[at] == s[at..at + |c.pod|][0] == c.pod[0] == c.pod[..3][0] == 'p';
      OtherStart(s, "besteffort/", at, 0);
      OtherStart(s, "burstable/", at, 0);
    } else if c.qos == "burstable/" {
      assert s[at + 1] == s[at..at + |c.qos|][1] == 'u';
      OtherStart(s, "besteffort/", at, 1);
    }
  }

  lemma OtherStart(s: string, part: string, at: nat, k: nat)
    requires at + k < |s| && k < |part| && s[at + k] != part[k]
    ensures !OccursAt(s, part, at)
  {
    if at + |part| <= |s| {
      assert s[at..at + |part|][k] == s[at + k];
    }
  }

  /** Two matches from the same start capture the same class, pod and id. */
  lemma KubernetesUnambiguous(s: string, i: nat, a: Container, b: Container)
    requires KubernetesAt(s, i, a) && KubernetesAt(s, i, b)
    ensures a == b
  {
    ParseIsComplete(s, i, a);
    ParseIsComplete(s, i, b);
  }

  /** The leftmost match. */
  function FindKubernetes(s: string): (r: Option<nat>)
    ensures r.Some? ==> r.value <= |s| && ParseAt(s, r.value).Some? && forall j :: 0 <= j < r.value ==> ParseAt(s, j).None?
    ensures r.None? ==> forall j :: 0 <= j <= |s| ==> ParseAt(s, j).None?
  {
    var matches := (j: nat) => ParseAt(s, j).Some?;
    assert forall j: nat {:trigger ParseAt(s, j)} :: matches(j) == ParseAt(s, j).Some?;
    First(matches, 0, |s|)
  }

  function KubernetesContainer(path: string): Option<Container> {
    match FindKubernetes(path)
    case None => None
    case Some(i) => ParseAt(path, i)
  }

  /** Validation succeeds exactly when an id is extracted. */
  lemma KubernetesValidates(path: string)
    ensures KubernetesValid(path) <==> KubernetesContainer(path).Some?
    ensures KubernetesContainer(path).Some? ==> IsId(KubernetesContainer(path).value.id)
  {
    var r := FindKubernetes(path);
    if r.Some? {
      ParseIsSound(path, r.value);
    }
    forall i, c | KubernetesAt(path, i, c)
      ensures r.Some?
    {
      ParseIsComplete(path, i, c);
    }
  }

  /** The letters of an occurrence. */
  lemma LetterOf(s: string, part: string, i: nat, k: nat)
    requires OccursAt(s, part, i) && i <= k < i + |part|
    ensures s[k] == part[k - i]
  {
    assert s[i..i + |part|][k - i] == s[k];
  }

  lemma PrefixLetters(s: string, i: nat)
    requires OccursAt(s, KUBEPODS_PREFIX, i)
    ensures i + 4 < |s| && s[i] == 'p' && s[i + 1] == 'e' && s[i + 2] == 'r' && s[i + 3] == 'f' && s[i + 4] == '_'
  {
    LetterOf(s, KUBEPODS_PREFIX, i, i);
    LetterOf(s, KUBEPODS_PREFIX, i, i + 1);
    LetterOf(s, KUBEPODS_PREFIX, i, i + 2);
    LetterOf(s, KUBEPODS_PREFIX, i, i + 3);
    LetterOf(s, KUBEPODS_PREFIX, i, i + 4);
  }

  lemma NotInPrefix(s: string, j: nat, i: nat)
    requires OccursAt(s, KUBEPODS_PREFIX, j) && j < i < j + |KUBEPODS_PREFIX|
    ensures !OccursAt(s, KUBEPODS_PREFIX, i)
  {
    LetterOf(s, KUBEPODS_PREFIX, j, i);
    if OccursAt(s, KUBEPODS_PREFIX, i) {
      PrefixLetters(s, i);
      if i - j == 15 {
        LetterOf(s, KUBEPODS_PREFIX, j, i + 1);
      }
    }
  }

  lemma NotInQos(s: string, qos: string, at: nat, i: nat)
    requires IsQos(qos) && OccursAt(s, qos, at) && at <= i < at + |qos|
    ensures !OccursAt(s, KUBEPODS_PREFIX, i)
  {
    LetterOf(s, qos, at, i);
    if OccursAt(s, KUBEPODS_PREFIX, i) {
      PrefixLetters(s, i);
    }
  }

  lemma NotInPod(s: string, pod: string, at: nat, i: nat)
    requires IsPod(pod) && OccursAt(s, pod, at) && OccursAt(s, "/", at + |pod|) && at <= i < at + |pod|
    ensures !OccursAt(s, KUBEPODS_PREFIX, i)
  {
    if OccursAt(s, KUBEPODS_PREFIX, i) {
      PrefixLetters(s, i);
      var slash := at + |pod|;
      LetterOf(s, "/", slash, slash);
      if i + 4 < slash {
        LetterOf(s, pod, at, i + 4);
        PodHasNoSlash(pod);
      }
    }
  }

  lemma NotInId(s: string, id: string, at: nat, i: nat)
    requires IsId(id) && OccursAt(s, id, at) && at <= i < at + |id|
    ensures !OccursAt(s, KUBEPODS_PREFIX, i)
  {
    LetterOf(s, id, at, i);
    if OccursAt(s, KUBEPODS_PREFIX, i) {
      PrefixLetters(s, i);
    }
  }

  /** Two matches never overlap. */
  lemma MatchesAreApart(s: string, j: nat, c: Container, i: nat)
    requires KubernetesAt(s, j, c) && j < i && OccursAt(s, KUBEPODS_PREFIX, i)
    ensures j + |Spelled(c)| <= i
  {
    Pieces(s, j, c);
    var atQos := j + |KUBEPODS_PREFIX|;
    var atPod := atQos + |c.qos|;
    var slash := atPod + |c.pod|;
    if i < atQos {
      NotInPrefix(s, j, i);
    } else if i < atPod {
      NotInQos(s, c.qos, atQos, i);
    } else if i < slash {
      NotInPod(s, c.pod, atPod, i);
    } else if i == slash {
      LetterOf(s, "/", slash, slash);
      PrefixLetters(s, i);
    } else if i < j + |Spelled(c)| {
      NotInId(s, c.id, slash + 1, i);
    }
  }

  lemma SameStart(before: string, rest: string, i: nat)
    requires i < |before| && OccursAt(before + rest, KUBEPODS_PREFIX, |before|)
    ensures ParseAt(before + rest, i) == ParseAt(before, i)
  {
    var path := before + rest;
    assert "" + before + rest == path;
    if ParseAt(path, i).Some? {
      var c := ParseAt(path, i).value;
      ParseIsSound(path, i);
      MatchesAreApart(path, i, c, |before|);
      OccursWithin("", before, rest, Spelled(c), i);
      ParseIsComplete(before, i, c);
    }
    if ParseAt(before, i).Some? {
      var c := ParseAt(before, i).value;
      ParseIsSound(before, i);
      OccursWithin("", before, rest, Spelled(c), i);
      ParseIsComplete(path, i, c);
    }
  }

  lemma NoRoom(s: string)
    ensures ParseAt(s, |s|).None?
  {}

  /** A path that spells a container gives that container back, unless what comes before it
      already spells one, which is then the one given. */
  lemma KubernetesRoundTrip(before: string, c: Container, after: string)
    requires IsContainer(c)
    ensures KubernetesContainer(before + Spelled(c) + after) ==
      if KubernetesContainer(before).Some? then KubernetesContainer(before) else Some(c)
  {
    var path, rest := before + Spelled(c) + after, Spelled(c) + after;
    assert before + rest == path;
    InTheMiddle(before, Spelled(c), after);
    Pieces(path, |before|, c);
    ParseIsComplete(path, |before|, c);
    NoRoom(before);
    forall i: nat | i < |before|
      ensures ParseAt(path, i) == ParseAt(before, i)
    {
      SameStart(before, rest, i);
    }
    FirstMatch(before, path, c);
  }

  /** The same, letter by letter, for a path in which nothing is spelled before. */
  lemma KubernetesPathRead(before: string, qos: string, pod: string, id: string, after: string)
    requires qos == "" || qos == "besteffort/" || qos == "burstable/"
    requires |pod| >= 5 && pod[..3] == "pod" && IsAlnum(pod[3]) && forall k :: 4 <= k < |pod| ==> IsNameChar(pod[k])
    requires |id| == 64 && forall c :: c in id ==> c in "0123456789abcdef"
    requires KubernetesContainer(before).None?
    ensures KubernetesContainer(before + ("perf_event/kubepods/" + qos + pod + "/" + id) + after) == Some(Container(qos, pod, id))
  {
    IdExactly(id);
    KubernetesRoundTrip(before, Container(qos, pod, id), after);
  }

  lemma FirstMatch(before: string, path: string, c: Container)
    requires |before| <= |path| && ParseAt(path, |before|) == Some(c) && ParseAt(before, |before|).None?
    requires forall i: nat :: i < |before| ==> ParseAt(path, i) == ParseAt(before, i)
    ensures KubernetesContainer(path) ==
      if KubernetesContainer(before).Some? then KubernetesContainer(before) else Some(c)
  {
    var earlier := FindKubernetes(before);
    if earlier.Some? {
      assert earlier.value != |before|;
      FoundAt(path, earlier.value);
    } else {
      FoundAt(path, |before|);
    }
  }

  lemma FoundAt(s: string, i: nat)
    requires i <= |s| && ParseAt(s, i).Some? && forall j :: 0 <= j < i ==> ParseAt(s, j).None?
    ensures FindKubernetes(s) == Some(i)
  {}

  lemma InTheMiddle(before: string, part: string, after: string)
    ensures OccursAt(before + part + after, part, |before|)
  {}

  // ----- Types of targets

  datatype TargetType = Unknown | All | System | Kernel | Docker | Kubernetes | Libvirt | Lxc

  /** target_detect_type: the first test that succeeds decides. */
  function DetectType(path: Option<CString>): TargetType {
    match path
    case None => All
    case Some(p) =>
      if Contains(p, "perf_event/system") then System
      else if Contains(p, "perf_event/kernel") then Kernel
      else if Contains(p, "perf_event/docker") then Docker
      else if Contains(p, "perf_event/kubepods") then Kubernetes
      else if Contains(p, "perf_event/machine.slice") then Libvirt
      else if Contains(p, "perf_event/lxc") then Lxc
      else Unknown
  }

  predicate Mentions(p: CString, name: string) { Contains(p, "perf_event/" + name) }

  /** Which type a path has: the first one, in this order, whose directory it mentions. */
  lemma TypeExactly(p: CString)
    ensures DetectType(None) == All && DetectType(Some(p)) != All
    ensures DetectType(Some(p)) == System <==> Mentions(p, "system")
    ensures DetectType(Some(p)) == Kernel <==> Mentions(p, "kernel") && !Mentions(p, "system")
    ensures DetectType(Some(p)) == Docker <==> Mentions(p, "docker") && !Mentions(p, "system") && !Mentions(p, "kernel")
    ensures DetectType(Some(p)) == Kubernetes <==>
      Mentions(p, "kubepods") && !Mentions(p, "system") && !Mentions(p, "kernel") && !Mentions(p, "docker")
    ensures DetectType(Some(p)) == Libvirt <==>
      && Mentions(p, "machine.slice")
      && !Mentions(p, "system") && !Mentions(p, "kernel") && !Mentions(p, "docker") && !Mentions(p, "kubepods")
    ensures DetectType(Some(p)) == Lxc <==>
      && Mentions(p, "lxc") && !Mentions(p, "machine.slice")
      && !Mentions(p, "system") && !Mentions(p, "kernel") && !Mentions(p, "docker") && !Mentions(p, "kubepods")
  {
    assert "perf_event/" + "system" == "perf_event/system";
    assert "perf_event/" + "kernel" == "perf_event/kernel";
    assert "perf_event/" + "docker" == "perf_event/docker";
    assert "perf_event/" + "kubepods" == "perf_event/kubepods";
    assert "perf_event/" + "machine.slice" == "perf_event/machine.slice";
    assert "perf_event/" + "lxc" == "perf_event/lxc";
  }

  /** target_validate_type. */
  predicate ValidType(t: TargetType, path: CString)
    ensures ValidType(t, path) <==>
      (t.Docker? ==> DockerValid(path)) && (t.Kubernetes? ==> KubernetesValid(path))
  {
    DockerValidates(path);
    KubernetesValidates(path);
    match t
    case Docker => DockerId(path).Some?
    case Kubernetes => KubernetesContainer(path).Some?
    case _ => true
  }

  datatype Target = Target(kind: TargetType, basedir: Option<CString>, path: Option<CString>)

  /** The container id used to look the name of a container up. */
  function ContainerId(t: Target): Option<string> {
    match (t.kind, t.path)
    case (Docker, Some(path)) => DockerId(path)
    case (Kubernetes, Some(path)) =>
      (match KubernetesContainer(path) case None => None case Some(c) => Some(c.id))
    case _ => None
  }

  /** A node of the file hierarchy: a directory with two hard links is a leaf. */
  datatype Node = Node(path: CString, directory: bool, links: nat)

  predicate Leaf(n: Node) { n.directory && n.links == 2 }

  predicate Discovered(n: Node) { Leaf(n) && ValidType(DetectType(Some(n.path)), n.path) }

  ghost predicate KeptAt(nodes: seq<Node>, mask: set<TargetType>, created: nat -> bool, k: nat, p: CString)
    requires k < |nodes|
  {
    && nodes[k].path == p && nodes[k].directory && nodes[k].links == 2 && created(k)
    && DetectType(Some(p)) in mask
    && (DetectType(Some(p)).Docker? ==> DockerValid(p)) && (DetectType(Some(p)).Kubernetes? ==> KubernetesValid(p))
  }

  ghost predicate KeptBefore(nodes: seq<Node>, mask: set<TargetType>, created: nat -> bool, n: nat, p: CString)
    requires n <= |nodes|
  {
    exists k :: 0 <= k < n && KeptAt(nodes, mask, created, k, p)
  }

  lemma KeptNext(nodes: seq<Node>, mask: set<TargetType>, created: nat -> bool, n: nat)
    requires n < |nodes|
    ensures forall p :: KeptBefore(nodes, mask, created, n + 1, p) <==>
      KeptBefore(nodes, mask, created, n, p) || KeptAt(nodes, mask, created, n, p)
  {
    forall p
      ensures KeptBefore(nodes, mask, created, n + 1, p) <==>
        KeptBefore(nodes, mask, created, n, p) || KeptAt(nodes, mask, created, n, p)
    {
      if KeptAt(nodes, mask, created, n, p) {
        assert KeptBefore(nodes, mask, created, n + 1, p);
      }
    }
  }

  /** target_discover_running; None for a hierarchy that cannot be opened. `created` says for which
      nodes a target can be allocated. A path that is already in the table is left alone. */
  method DiscoverRunning(base: CString, nodes: Option<seq<Node>>, mask: set<TargetType>, created: nat -> bool)
    returns (ret: int, targets: map<CString, Target>)
    ensures ret == if nodes.None? then -1 else 0
    ensures nodes.None? ==> targets == map[]
    ensures nodes.Some? ==>
      && (forall p :: p in targets <==> KeptBefore(nodes.value, mask, created, |nodes.value|, p))
      && (forall p :: p in targets ==> targets[p] == Target(DetectType(Some(p)), Some(base), Some(p)))
  {
    targets := map[];
    if nodes.None? {
      return -1, targets;
    }
    var k := 0;
    while k < |nodes.value|
      invariant k <= |nodes.value|
      invariant forall p :: p in targets <==> KeptBefore(nodes.value, mask, created, k, p)
      invariant forall p :: p in targets ==> targets[p] == Target(DetectType(Some(p)), Some(base), Some(p))
    {
      KeptNext(nodes.value, mask, created, k);
      var node := nodes.value[k];
      if Leaf(node) {
        var kind := DetectType(Some(node.path));
        if kind in mask && ValidType(kind, node.path) && created(k) && node.path !in targets {
          targets := targets[node.path := Target(kind, Some(base), Some(node.path))];
        }
      }
      k := k + 1;
    }
    ret := 0;
  }

  /** Every container that discovery keeps has an id. */
  lemma DiscoveredContainersHaveIds(base: CString, n: Node)
    ensures var t := Target(DetectType(Some(n.path)), Some(base), Some(n.path));
      Discovered(n) && (t.kind.Docker? || t.kind.Kubernetes?) ==> ContainerId(t).Some? && IsId(ContainerId(t).value)
  {
    if Discovered(n) {
      ValidHasId(DetectType(Some(n.path)), base, n.path);
    }
  }

  lemma ValidHasId(kind: TargetType, base: CString, path: CString)
    requires ValidType(kind, path)
    ensures var t := Target(kind, Some(base), Some(path));
      kind.Docker? || kind.Kubernetes? ==> ContainerId(t).Some? && IsId(ContainerId(t).value)
  {
    DockerValidates(path);
    KubernetesValidates(path);
  }

  // ----- Names of targets

  function StaticName(t: TargetType): Option<string> {
    match t
    case All => Some("all")
    case Kernel => Some("kernel")
    case System => Some("system")
    case _ => None
  }

  /** target_resolve_real_name; `names` is what the configuration files of the containers say. */
  function RealName(t: Target, names: string -> Option<string>): Option<string> {
    var found := match t.kind
      case Docker => (match ContainerId(t) case None => None case Some(id) => names(ConfigPath(id)))
      case Kubernetes => (match ContainerId(t) case None => None case Some(id) => names(ConfigPath(id)))
      case other => StaticName(other);
    if found.Some? then found
    else
      match (t.path, t.basedir)
      case (Some(path), Some(base)) => if |base| <= |path| then Some(path[|base|..]) else None
      case _ => None
  }

  /** A target that is not a cgroup, or is the kernel's or the system's, has a fixed name, and a
      container has the one that the file of its id gives, if there is one. */
  lemma NamesGiven(t: Target, names: string -> Option<string>)
    ensures t.kind.All? ==> RealName(t, names) == Some("all")
    ensures t.kind.Kernel? ==> RealName(t, names) == Some("kernel")
    ensures t.kind.System? ==> RealName(t, names) == Some("system")
    ensures t.path.Some? && t.kind.Docker? && DockerId(t.path.value).Some? ==>
      var name := names("/var/lib/docker/containers/" + DockerId(t.path.value).value + "/config.v2.json");
      name.Some? ==> RealName(t, names) == name
    ensures t.path.Some? && t.kind.Kubernetes? && KubernetesContainer(t.path.value).Some? ==>
      var name := names("/var/lib/docker/containers/" + KubernetesContainer(t.path.value).value.id + "/config.v2.json");
      name.Some? ==> RealName(t, names) == name
  {}

  /** Every target below its base directory has a name, which is its path below that directory
      when neither its type nor a configuration file gives one. */
  lemma NamesResolve(base: CString, below: CString, names: string -> Option<string>)
    ensures var t := Target(DetectType(Some(base + below)), Some(base), Some(base + below));
      && RealName(t, names).Some?
      && ((forall path :: names(path) == None) && !t.kind.All? && !t.kind.Kernel? && !t.kind.System? ==>
           RealName(t, names) == Some(below))
  {
    assert (base + below)[|base|..] == below;
  }
}
