/**
 * SSCMUtils: the four `sscm://` URL extractors and the validator. All five run
 * `Matcher.find()` with the pattern `sscm://(.*):(.*)//(.*)//(.*)` and, when it
 * finds a match, answer group 1 (server), 2 (port), 3 (branch) or 4
 * (repository), or `true`; otherwise "" (or `false`). A null URL gives "" and
 * `false`. The pattern's `groupCount()` is 4 whatever the input, so that part
 * of the condition always holds and is not modelled.
 *
 * The pattern is modelled by what it means rather than by a regular-expression
 * engine: `find()` tries start positions from left to right; at a start where
 * "sscm://" stands, the three greedy `(.*)` groups are given back one character
 * at a time, so each ends at the last place the rest of the pattern still
 * matches; `.` does not match a line terminator, so the groups stay on the line
 * of the "sscm://", and the last group runs to the end of that line.
 */
module SscmUrl {
  import opened Wrappers

  /** The characters `.` does not match: `\n`, `\r`, U+0085, U+2028 and U+2029. */
  predicate IsLineTerminator(c: char) {
    c == '\n' || c == '\r' || c == '\U{85}' || c == '\U{2028}' || c == '\U{2029}'
  }

  predicate NoLineTerminator(s: string) {
    forall k :: 0 <= k < |s| ==> !IsLineTerminator(s[k])
  }

  /** The end of the line that holds position `p`: the first line terminator from `p` on, or the end of the text. */
  function LineEnd(s: string, p: nat): (e: nat)
    requires p <= |s|
    ensures p <= e <= |s|
    ensures forall k :: p <= k < e ==> !IsLineTerminator(s[k])
    ensures e < |s| ==> IsLineTerminator(s[e])
    decreases |s| - p
  {
    if p == |s| || IsLineTerminator(s[p]) then p else LineEnd(s, p + 1)
  }

  const Scheme: string := "sscm://"

  /** "sscm://" stands at position `i`. */
  predicate SchemeAt(s: string, i: nat) {
    i + |Scheme| <= |s| && s[i..i + |Scheme|] == Scheme
  }

  /** A "//" starts at position `k`. */
  predicate SepAt(s: string, k: int) {
    0 <= k && k + 2 <= |s| && s[k] == '/' && s[k + 1] == '/'
  }

  /** A ':' stands at position `k`. */
  predicate ColonAt(s: string, k: int) {
    0 <= k < |s| && s[k] == ':'
  }

  /** The greatest `k` in `[lo, hi)` for which `p` holds, if there is one. */
  function LastWhere(p: int -> bool, lo: int, hi: int): (r: Option<int>)
    ensures r.Some? ==> lo <= r.value < hi && p(r.value)
    ensures r.Some? ==> forall k :: r.value < k < hi ==> !p(k)
    ensures r.None? ==> forall k :: lo <= k < hi ==> !p(k)
    decreases hi - lo
  {
    if hi <= lo then None
    else if p(hi - 1) then Some(hi - 1)
    else LastWhere(p, lo, hi - 1)
  }

  /** A position where `p` holds and nothing above it (below `hi`) does is what the search answers. */
  lemma LastWhereIs(p: int -> bool, lo: int, hi: int, x: int)
    requires lo <= x < hi && p(x)
    requires forall k :: x < k < hi ==> !p(k)
    ensures LastWhere(p, lo, hi) == Some(x)
  {
  }

  /** A "//" at `k` that ends by `hi`. */
  function SepBefore(s: string, hi: int): int -> bool {
    k => SepAt(s, k) && k + 2 <= hi
  }

  /** A ':' at `k`. */
  function IsColon(s: string): int -> bool {
    k => ColonAt(s, k)
  }

  /**
   * Where a match sits: the start of "sscm://", the ':' after group 1, the
   * "//" after group 2, the "//" after group 3, and the end of the line, where
   * group 4 ends.
   */
  datatype Span = Span(start: nat, colon: nat, sep1: nat, sep2: nat, end: nat)

  /** `m` is one way for the whole pattern to match at `m.start`. */
  predicate Matches(s: string, m: Span) {
    && SchemeAt(s, m.start)
    && m.end == LineEnd(s, m.start + |Scheme|)
    && m.start + |Scheme| <= m.colon && ColonAt(s, m.colon)
    && m.colon < m.sep1 && SepAt(s, m.sep1)
    && m.sep1 + 2 <= m.sep2 && SepAt(s, m.sep2)
    && m.sep2 + 2 <= m.end
  }

  /**
   * The match the greedy groups settle on at start `i`: the last "//" on the
   * line ends group 3, the last "//" before it ends group 2, and the last ':'
   * before that ends group 1.
   */
  function MatchAt(s: string, i: nat): (r: Option<Span>)
    requires SchemeAt(s, i)
    ensures r.Some? ==> r.value.start == i && r.value.end == LineEnd(s, i + |Scheme|)
  {
    var p := i + |Scheme|;
    var e := LineEnd(s, p);
    match LastWhere(SepBefore(s, e), p, e)
    case None => None
    case Some(c) =>
      match LastWhere(SepBefore(s, c), p, c)
      case None => None
      case Some(b) =>
        match LastWhere(IsColon(s), p, b)
        case None => None
        case Some(a) => Some(Span(i, a, b, c, e))
  }

  /**
   * At a start, the greedy choice is a match, it exists whenever any match at
   * that start exists, and each of its three separators is the last possible.
   */
  lemma MatchAtIsGreedy(s: string, i: nat)
    requires SchemeAt(s, i)
    ensures MatchAt(s, i).Some? ==> Matches(s, MatchAt(s, i).value) && MatchAt(s, i).value.start == i
    ensures forall m :: Matches(s, m) && m.start == i ==>
              && MatchAt(s, i).Some?
              && m.colon <= MatchAt(s, i).value.colon
              && m.sep1 <= MatchAt(s, i).value.sep1
              && m.sep2 <= MatchAt(s, i).value.sep2
  {
    var p := i + |Scheme|;
    var e := LineEnd(s, p);
    forall m | Matches(s, m) && m.start == i
      ensures && MatchAt(s, i).Some?
              && m.colon <= MatchAt(s, i).value.colon
              && m.sep1 <= MatchAt(s, i).value.sep1
              && m.sep2 <= MatchAt(s, i).value.sep2
    {
      assert SepBefore(s, e)(m.sep2);
      var c := LastWhere(SepBefore(s, e), p, e).value;
      assert m.sep2 <= c;
      assert SepBefore(s, c)(m.sep1);
      var b := LastWhere(SepBefore(s, c), p, c).value;
      assert m.sep1 <= b;
      assert IsColon(s)(m.colon);
      var a := LastWhere(IsColon(s), p, b).value;
      assert m.colon <= a;
      assert MatchAt(s, i) == Some(Span(i, a, b, c, e));
    }
  }

  /** `find()` from position `i` on: the first start at which the pattern matches. */
  function FindFrom(s: string, i: nat): (r: Option<Span>)
    ensures r.Some? ==> i <= r.value.start && SchemeAt(s, r.value.start)
    decreases |s| - i
  {
    if |s| < i + |Scheme| then None
    else if SchemeAt(s, i) && MatchAt(s, i).Some? then MatchAt(s, i)
    else FindFrom(s, i + 1)
  }

  /** `find()` on a fresh matcher. */
  function Find(s: string): (r: Option<Span>)
    ensures r.Some? ==> SchemeAt(s, r.value.start)
  {
    FindFrom(s, 0)
  }

  /**
   * The search from `i` answers a match at or after `i`, and answers one
   * whenever some match starts at or after `i`, never later than it.
   */
  lemma {:induction false} FindFromSound(s: string, i: nat)
    ensures FindFrom(s, i).Some? ==> Matches(s, FindFrom(s, i).value) && i <= FindFrom(s, i).value.start
    ensures forall m :: Matches(s, m) && i <= m.start ==> FindFrom(s, i).Some?
    ensures forall m :: Matches(s, m) && i <= m.start ==> FindFrom(s, i).value.start <= m.start
    decreases |s| - i
  {
    if |s| >= i + |Scheme| {
      if SchemeAt(s, i) {
        MatchAtIsGreedy(s, i);
      }
      if !(SchemeAt(s, i) && MatchAt(s, i).Some?) {
        FindFromSound(s, i + 1);
        forall m | Matches(s, m) && i <= m.start
          ensures i + 1 <= m.start
        {
          if m.start == i {
            MatchAtIsGreedy(s, i);
          }
        }
      }
    }
  }

  /**
   * `find()` answers a match exactly when the pattern matches somewhere; its
   * match starts at the leftmost start where one exists, and there its three
   * separators are the last possible ones.
   */
  lemma FindIsLeftmostGreedy(s: string)
    ensures Find(s).Some? <==> exists m :: Matches(s, m)
    ensures Find(s).Some? ==> Matches(s, Find(s).value)
    ensures forall m :: Matches(s, m) ==>
              && Find(s).Some?
              && Find(s).value.start <= m.start
              && (m.start == Find(s).value.start ==>
                    m.colon <= Find(s).value.colon && m.sep1 <= Find(s).value.sep1 && m.sep2 <= Find(s).value.sep2)
  {
    FindFromSound(s, 0);
    if Find(s).Some? {
      MatchAtIsGreedy(s, Find(s).value.start);
      FindStartsAtItsMatch(s, 0);
    }
  }

  /** The match `FindFrom` answers is the greedy match at its own start. */
  lemma {:induction false} FindStartsAtItsMatch(s: string, i: nat)
    requires FindFrom(s, i).Some?
    ensures SchemeAt(s, FindFrom(s, i).value.start)
    ensures FindFrom(s, i) == MatchAt(s, FindFrom(s, i).value.start)
    decreases |s| - i
  {
    if !(SchemeAt(s, i) && MatchAt(s, i).Some?) {
      FindStartsAtItsMatch(s, i + 1);
    } else {
      MatchAtIsGreedy(s, i);
    }
  }

  /** The four groups of a match: server, port, branch and repository. */
  datatype Groups = Groups(server: string, port: string, branch: string, repository: string)

  function GroupsOf(s: string, m: Span): Groups
    requires Matches(s, m)
  {
    Groups(s[m.start + |Scheme|..m.colon], s[m.colon + 1..m.sep1], s[m.sep1 + 2..m.sep2], s[m.sep2 + 2..m.end])
  }

  /** The groups `find()` yields on a URL, none for a null URL or when the pattern does not match. */
  function FoundGroups(url: Option<string>): Option<Groups> {
    match url
    case None => None
    case Some(s) =>
      FindFromSound(s, 0);
      match Find(s)
      case None => None
      case Some(m) => Some(GroupsOf(s, m))
  }

  /** `getServerFromURL`. */
  function GetServerFromUrl(url: Option<string>): (r: string)
    ensures !ValidateSscmUrl(url) ==> r == ""
  {
    match FoundGroups(url)
    case None => ""
    case Some(g) => g.server
  }

  /** `getPortFromURL`. */
  function GetPortFromUrl(url: Option<string>): (r: string)
    ensures !ValidateSscmUrl(url) ==> r == ""
  {
    match FoundGroups(url)
    case None => ""
    case Some(g) => g.port
  }

  /** `getBranchFromURL`. */
  function GetBranchFromUrl(url: Option<string>): (r: string)
    ensures !ValidateSscmUrl(url) ==> r == ""
  {
    match FoundGroups(url)
    case None => ""
    case Some(g) => g.branch
  }

  /** `getRepositoryFromURL`. */
  function GetRepositoryFromUrl(url: Option<string>): (r: string)
    ensures !ValidateSscmUrl(url) ==> r == ""
  {
    match FoundGroups(url)
    case None => ""
    case Some(g) => g.repository
  }

  /** `validateSSCMURL`. */
  function ValidateSscmUrl(url: Option<string>): (b: bool)
    ensures b ==> url.Some? && Find(url.value).Some? && Matches(url.value, Find(url.value).value)
  {
    match url
    case None => false
    case Some(s) =>
      FindFromSound(s, 0);
      FoundGroups(url).Some?
  }

  /**
   * The validator is true exactly when the pattern matches somewhere in a
   * non-null URL, and the five operations share that condition: when it fails
   * every extractor answers "", and when it holds each answers its group.
   */
  lemma ExtractorsShareValidation(url: Option<string>)
    ensures ValidateSscmUrl(url) <==> url.Some? && exists m :: Matches(url.value, m)
    ensures url.None? ==> !ValidateSscmUrl(url)
    ensures !ValidateSscmUrl(url) ==>
              GetServerFromUrl(url) == "" && GetPortFromUrl(url) == "" &&
              GetBranchFromUrl(url) == "" && GetRepositoryFromUrl(url) == ""
    ensures ValidateSscmUrl(url) ==>
              var s := url.value;
              var m := Find(s).value;
              && Matches(s, m)
              && GetServerFromUrl(url) == s[m.start + |Scheme|..m.colon]
              && GetPortFromUrl(url) == s[m.colon + 1..m.sep1]
              && GetBranchFromUrl(url) == s[m.sep1 + 2..m.sep2]
              && GetRepositoryFromUrl(url) == s[m.sep2 + 2..m.end]
  {
    if url.Some? {
      FindIsLeftmostGreedy(url.value);
    }
  }

  /** No two consecutive '/' anywhere in `s`. */
  predicate NoDoubleSlash(s: string) {
    forall k :: 0 <= k < |s| - 1 ==> !(s[k] == '/' && s[k + 1] == '/')
  }

  /** The URL `sscm://S:P//B//R` the extractors are meant to take apart. */
  function Compose(server: string, port: string, branch: string, repository: string): string {
    Scheme + server + ":" + port + "//" + branch + "//" + repository
  }

  /**
   * The extractors take a composed URL apart again when the parts leave the
   * greedy groups no other choice: nothing breaks the line, the port has no
   * ':' and no '/', the branch has no '/', and the repository has no "//" and
   * does not start with '/'. The server is unconstrained, the port need not be
   * a number, and any part may be empty.
   */
  lemma ComposeRoundTrip(server: string, port: string, branch: string, repository: string)
    requires NoLineTerminator(server) && NoLineTerminator(port)
    requires NoLineTerminator(branch) && NoLineTerminator(repository)
    requires ':' !in port && '/' !in port && '/' !in branch
    requires NoDoubleSlash(repository) && (repository == [] || repository[0] != '/')
    ensures var url := Some(Compose(server, port, branch, repository));
            && ValidateSscmUrl(url)
            && GetServerFromUrl(url) == server
            && GetPortFromUrl(url) == port
            && GetBranchFromUrl(url) == branch
            && GetRepositoryFromUrl(url) == repository
  {
    ComposeLayout(server, port, branch, repository);
    ComposePlain(server, port, branch, repository);
    var s := Compose(server, port, branch, repository);
    var a := |Scheme| + |server|;
    LaidOutMatch(s, a, port, branch, repository);
    LaidOutGroups(s, server, port, branch, repository);
  }

  /** The groups of a laid-out text are its parts. */
  lemma LaidOutGroups(s: string, server: string, port: string, branch: string, repository: string)
    requires var a := |Scheme| + |server|;
             var b := a + 1 + |port|;
             var c := b + 2 + |branch|;
             && |s| == c + 2 + |repository|
             && s[|Scheme|..a] == server && s[a + 1..b] == port && s[b + 2..c] == branch && s[c + 2..] == repository
             && Find(s) == Some(Span(0, a, b, c, |s|))
    ensures var url := Some(s);
            && ValidateSscmUrl(url)
            && GetServerFromUrl(url) == server
            && GetPortFromUrl(url) == port
            && GetBranchFromUrl(url) == branch
            && GetRepositoryFromUrl(url) == repository
  {
  }

  /**
   * A text laid out as "sscm://", anything, ':', the port, "//", the branch,
   * "//", the repository, on one line, matches at 0 with these separators.
   */
  lemma LaidOutMatch(s: string, a: nat, port: string, branch: string, repository: string)
    requires |Scheme| <= a && |s| == a + 1 + |port| + 2 + |branch| + 2 + |repository|
    requires s[..|Scheme|] == Scheme && forall k :: |Scheme| <= k < |s| ==> !IsLineTerminator(s[k])
    requires s[a] == ':' && s[a + 1..a + 1 + |port|] == port && ':' !in port
    requires var b := a + 1 + |port|; s[b] == '/' && s[b + 1] == '/' && s[b + 2..b + 2 + |branch|] == branch && '/' !in branch
    requires var c := a + 1 + |port| + 2 + |branch|;
             s[c] == '/' && s[c + 1] == '/' && s[c + 2..] == repository
    requires NoDoubleSlash(repository) && (repository == [] || repository[0] != '/')
    ensures var b := a + 1 + |port|;
            var c := b + 2 + |branch|;
            Find(s) == Some(Span(0, a, b, c, |s|))
  {
    var b := a + 1 + |port|;
    var c := b + 2 + |branch|;
    assert SchemeAt(s, 0);
    LineEndOfPlainText(s, |Scheme|);
    LastSepIs(s, |Scheme|, c, repository);
    SepBeforeLastIs(s, |Scheme|, b, c, branch);
    LastColonIs(s, |Scheme|, a, b, port);
    assert MatchAt(s, 0) == Some(Span(0, a, b, c, |s|));
  }

  /** A composed URL holds no line terminator after its scheme. */
  lemma ComposePlain(server: string, port: string, branch: string, repository: string)
    requires NoLineTerminator(server) && NoLineTerminator(port)
    requires NoLineTerminator(branch) && NoLineTerminator(repository)
    ensures var s := Compose(server, port, branch, repository);
            forall k :: |Scheme| <= k < |s| ==> !IsLineTerminator(s[k])
  {
  }

  /** The "//" before a repository without "//" (and not starting with '/') is the last one of the text. */
  lemma LastSepIs(s: string, lo: nat, c: nat, repository: string)
    requires lo <= c && c + 2 + |repository| == |s| && s[c] == '/' && s[c + 1] == '/'
    requires s[c + 2..] == repository
    requires NoDoubleSlash(repository) && (repository == [] || repository[0] != '/')
    ensures LastWhere(SepBefore(s, |s|), lo, |s|) == Some(c)
  {
    forall k | c < k < |s|
      ensures !SepBefore(s, |s|)(k)
    {
      if k == c + 1 {
        assert k + 2 <= |s| ==> s[k + 1] == repository[0];
      } else {
        assert s[k] == repository[k - c - 2];
        assert k + 1 < |s| ==> s[k + 1] == repository[k - c - 1];
      }
    }
    LastWhereIs(SepBefore(s, |s|), lo, |s|, c);
  }

  /** The "//" before a branch without '/' is the last one that ends before the branch's own "//". */
  lemma SepBeforeLastIs(s: string, lo: nat, b: nat, c: nat, branch: string)
    requires lo <= b && b + 2 + |branch| == c && c <= |s| && s[b] == '/' && s[b + 1] == '/'
    requires s[b + 2..c] == branch && '/' !in branch
    ensures LastWhere(SepBefore(s, c), lo, c) == Some(b)
  {
    forall k | b < k < c
      ensures !SepBefore(s, c)(k)
    {
      if k > b + 1 {
        assert s[k] == branch[k - b - 2];
      }
    }
    LastWhereIs(SepBefore(s, c), lo, c, b);
  }

  /** The ':' before a port without ':' is the last ':' before the port's "//". */
  lemma LastColonIs(s: string, lo: nat, a: nat, b: nat, port: string)
    requires lo <= a && a + 1 + |port| == b <= |s| && s[a] == ':'
    requires s[a + 1..b] == port && ':' !in port
    ensures LastWhere(IsColon(s), lo, b) == Some(a)
  {
    forall k | a < k < b
      ensures !IsColon(s)(k)
    {
      assert s[k] == port[k - a - 1];
    }
    LastWhereIs(IsColon(s), lo, b, a);
  }

  /** Where each part of a composed URL lies. */
  lemma ComposeLayout(server: string, port: string, branch: string, repository: string)
    ensures var s := Compose(server, port, branch, repository);
            var a := |Scheme| + |server|;
            var b := a + 1 + |port|;
            var c := b + 2 + |branch|;
            && |s| == c + 2 + |repository|
            && s[..|Scheme|] == Scheme
            && s[|Scheme|..a] == server && s[a] == ':'
            && s[a + 1..b] == port && s[b] == '/' && s[b + 1] == '/'
            && s[b + 2..c] == branch && s[c] == '/' && s[c + 1] == '/'
            && s[c + 2..] == repository
  {
  }

  /** On text without line terminators the line runs to the end. */
  lemma {:induction false} LineEndOfPlainText(s: string, p: nat)
    requires p <= |s|
    requires forall k :: p <= k < |s| ==> !IsLineTerminator(s[k])
    ensures LineEnd(s, p) == |s|
    decreases |s| - p
  {
  }

  /** Without "sscm://" anywhere the pattern cannot match: every extractor answers "" and the URL is invalid. */
  lemma NoSchemeNoMatch(s: string)
    requires forall i :: !SchemeAt(s, i)
    ensures !ValidateSscmUrl(Some(s))
    ensures GetServerFromUrl(Some(s)) == "" && GetPortFromUrl(Some(s)) == ""
    ensures GetBranchFromUrl(Some(s)) == "" && GetRepositoryFromUrl(Some(s)) == ""
  {
    FindIsLeftmostGreedy(s);
    ExtractorsShareValidation(Some(s));
  }

  /**
   * A URL with a single "//" after its scheme cannot match: group 3 needs a
   * second "//" at least two characters after the first. Every extractor
   * answers "", whatever the parts look like otherwise.
   */
  lemma SingleSeparatorNoMatch(head: string, tail: string)
    requires NoDoubleSlash(head) && (head == [] || head[|head| - 1] != '/')
    requires NoDoubleSlash(tail) && (tail == [] || tail[0] != '/')
    ensures var url := Some(Scheme + head + "//" + tail);
            && !ValidateSscmUrl(url)
            && GetServerFromUrl(url) == "" && GetPortFromUrl(url) == ""
            && GetBranchFromUrl(url) == "" && GetRepositoryFromUrl(url) == ""
  {
    var s := Scheme + head + "//" + tail;
    var j := |Scheme| + |head|;
    assert s[|Scheme|..j] == head && s[j] == '/' && s[j + 1] == '/' && s[j + 2..] == tail;
    OnlySeparator(s, head, tail);
    FindIsLeftmostGreedy(s);
    forall m
      ensures !Matches(s, m)
    {
      if m.start + |Scheme| <= m.colon < m.sep1 && SepAt(s, m.sep1) {
        assert m.sep1 == j;
      }
    }
    ExtractorsShareValidation(Some(s));
  }

  /** Past the scheme, the "//" between `head` and `tail` is the only one. */
  lemma OnlySeparator(s: string, head: string, tail: string)
    requires |s| == |Scheme| + |head| + 2 + |tail|
    requires var j := |Scheme| + |head|;
             s[|Scheme|..j] == head && s[j] == '/' && s[j + 1] == '/' && s[j + 2..] == tail
    requires NoDoubleSlash(head) && (head == [] || head[|head| - 1] != '/')
    requires NoDoubleSlash(tail) && (tail == [] || tail[0] != '/')
    ensures forall k :: |Scheme| <= k && k != |Scheme| + |head| ==> !SepAt(s, k)
  {
  }

  /** The repository text used in the examples below: one line, single slashes only. */
  lemma ExampleRepositoryIsPlain()
    ensures var r := "Mainline/Path/To/Repository";
            NoLineTerminator(r) && NoDoubleSlash(r) && r[0] != '/'
  {
  }

  /** `sscm://server:4900//branch//Mainline/Path/To/Repository` splits into its four parts and is valid. */
  lemma ExampleUrl()
    ensures var url := Some(Compose("server", "4900", "branch", "Mainline/Path/To/Repository"));
            && ValidateSscmUrl(url)
            && GetServerFromUrl(url) == "server" && GetPortFromUrl(url) == "4900"
            && GetBranchFromUrl(url) == "branch" && GetRepositoryFromUrl(url) == "Mainline/Path/To/Repository"
  {
    ExampleRepositoryIsPlain();
    ComposeRoundTrip("server", "4900", "branch", "Mainline/Path/To/Repository");
  }

  /** Empty groups are accepted, each field on its own: no server still gives the port. */
  lemma ExampleEmptyServer()
    ensures var url := Some(Compose("", "4900", "branch", "Mainline/Path/To/Repository"));
            GetServerFromUrl(url) == "" && GetPortFromUrl(url) == "4900"
  {
    ExampleRepositoryIsPlain();
    ComposeRoundTrip("", "4900", "branch", "Mainline/Path/To/Repository");
  }

  /** No branch between the two "//" still gives the repository. */
  lemma ExampleEmptyBranch()
    ensures var url := Some(Compose("server", "4900", "", "Mainline/Path/To/Repository"));
            GetBranchFromUrl(url) == "" && GetRepositoryFromUrl(url) == "Mainline/Path/To/Repository"
  {
    ExampleRepositoryIsPlain();
    ComposeRoundTrip("server", "4900", "", "Mainline/Path/To/Repository");
  }

  /** Nothing after the second "//" is a valid URL with an empty repository. */
  lemma ExampleEmptyRepository()
    ensures var url := Some(Compose("server", "4900", "branch", ""));
            ValidateSscmUrl(url) && GetRepositoryFromUrl(url) == ""
  {
    ComposeRoundTrip("server", "4900", "branch", "");
  }

  /** The text after the single "//" in the example below: single slashes only. */
  lemma ExampleTailIsPlain()
    ensures var t := "branch/Mainline/Path/To/Repository";
            NoDoubleSlash(t) && t[0] != '/'
  {
  }

  /** A "/" where "//" belongs leaves one separator, so branch and repository come back "". */
  lemma ExampleMissingSeparator()
    ensures var url := Some(Scheme + "server:4900" + "//" + "branch/Mainline/Path/To/Repository");
            GetBranchFromUrl(url) == "" && GetRepositoryFromUrl(url) == ""
  {
    ExampleTailIsPlain();
    SingleSeparatorNoMatch("server:4900", "branch/Mainline/Path/To/Repository");
  }
}
