/**
 * The link checker of the gitbooks tools: classifying a markdown link target
 * as an external web link, an internal relative path or neither, deriving the
 * directory of the markdown file, and the counters and error lists that
 * `validate_links` keeps over the targets of one file.
 */
module LinkCheck {
  import opened Wrappers

  // ---------------------------------------------------------------------------
  // get_path: drop the last `/`-separated segment
  // ---------------------------------------------------------------------------

  /** Python's `s.split('/')`: the pieces between slashes, always at least one. */
  function Split(s: string): (parts: seq<string>)
    ensures |parts| >= 1
    decreases |s|
  {
    if s == [] then [[]]
    else
      var rest := Split(s[1..]);
      if s[0] == '/' then [[]] + rest
      else [[s[0]] + rest[0]] + rest[1..]
  }

  /** Python's `'/'.join(parts)`. */
  function Join(parts: seq<string>): string
    decreases |parts|
  {
    if parts == [] then []
    else if |parts| == 1 then parts[0]
    else parts[0] + "/" + Join(parts[1..])
  }

  /** `get_path`: drop the last `/`-separated segment. */
  function GetPath(p: string): string {
    var parts := Split(p);
    Join(parts[..|parts| - 1])
  }

  /** The index of the last slash among the first `n` characters of `s`, or -1. */
  function LastSlashIn(s: string, n: nat): (k: int)
    requires n <= |s|
    ensures -1 <= k < n
    ensures k >= 0 ==> s[k] == '/'
    ensures forall i :: k < i < n ==> s[i] != '/'
    decreases n
  {
    if n == 0 then -1
    else if s[n - 1] == '/' then n - 1
    else LastSlashIn(s, n - 1)
  }

  /** The index of the last slash in `s`, or -1 when there is none. */
  function LastSlash(s: string): (k: int)
    ensures -1 <= k < |s|
    ensures k >= 0 ==> s[k] == '/'
    ensures forall i :: k < i < |s| ==> s[i] != '/'
  {
    LastSlashIn(s, |s|)
  }

  /** Only the last slash has no slash after it. */
  lemma LastSlashUnique(s: string, j: nat)
    requires j < |s| && s[j] == '/'
    requires forall i :: j < i < |s| ==> s[i] != '/'
    ensures LastSlash(s) == j
  {
    var k := LastSlash(s);
    assert k >= j;
  }

  /** No piece of a split holds a slash, and joining the pieces gives the string back. */
  lemma {:induction false} SplitJoin(s: string)
    ensures forall i :: 0 <= i < |Split(s)| ==> '/' !in Split(s)[i]
    ensures Join(Split(s)) == s
    decreases |s|
  {
    if s != [] {
      SplitJoin(s[1..]);
      var rest := Split(s[1..]);
      if s[0] != '/' {
        assert Split(s)[1..] == rest[1..];
        assert forall i :: 1 <= i < |Split(s)| ==> Split(s)[i] == rest[i];
        if |rest| > 1 {
          assert rest == [rest[0]] + rest[1..];
        }
      } else {
        assert Split(s)[1..] == rest;
      }
      assert s == [s[0]] + s[1..];
    }
  }

  /** A string without a slash splits into itself alone. */
  lemma {:induction false} SplitNoSlash(s: string)
    requires '/' !in s
    ensures Split(s) == [s]
    decreases |s|
  {
    if s != [] {
      SplitNoSlash(s[1..]);
      assert s == [s[0]] + s[1..];
    }
  }

  /** Joining one more piece puts a slash before it. */
  lemma {:induction false} JoinSnoc(parts: seq<string>, last: string)
    requires parts != []
    ensures Join(parts + [last]) == Join(parts) + "/" + last
    decreases |parts|
  {
    if |parts| > 1 {
      assert (parts + [last])[1..] == parts[1..] + [last];
      JoinSnoc(parts[1..], last);
    } else {
      assert (parts + [last])[1..] == [last];
    }
  }

  /** `get_path` is everything before the last slash, or "" when there is none;
      when there is one, the path is the result, a slash, and a last segment
      free of slashes. */
  lemma GetPathBeforeLastSlash(p: string)
    ensures '/' !in p ==> GetPath(p) == ""
    ensures '/' in p ==>
              && 0 <= LastSlash(p) && GetPath(p) == p[..LastSlash(p)]
              && p == GetPath(p) + "/" + p[LastSlash(p) + 1..]
              && '/' !in p[LastSlash(p) + 1..]
  {
    if '/' !in p {
      SplitNoSlash(p);
    } else {
      var parts := Split(p);
      SplitJoin(p);
      var n := |parts| - 1;
      assert n != 0;
      var head, last := parts[..n], parts[n];
      assert parts == head + [last];
      JoinSnoc(head, last);
      assert p == GetPath(p) + "/" + last;
      var j := |GetPath(p)|;
      assert p[j] == '/';
      assert p[j + 1..] == last;
      assert forall i :: j < i < |p| ==> p[i] == last[i - j - 1];
      LastSlashUnique(p, j);
    }
  }

  // ---------------------------------------------------------------------------
  // The two regular expressions, as predicates
  // ---------------------------------------------------------------------------

  /** `re.match('http[s]?://[^)]+', t)`: the scheme at the start, then at least
      one character other than ')'. The match is anchored only at the start. */
  predicate IsHttpLink(t: string) {
    || (|t| > 7 && t[..7] == "http://" && t[7] != ')')
    || (|t| > 8 && t[..8] == "https://" && t[8] != ')')
  }

  /** `re.match('^(.+)/([^/]+)$', t)` read off its parts: some slash with a
      non-empty head of non-newline characters before it and a non-empty tail
      without slashes after it. */
  ghost predicate RelativeRegexMatches(t: string) {
    exists k :: 0 < k < |t| - 1 && t[k] == '/' && NoNewline(t, k) && (forall i :: k < i < |t| ==> t[i] != '/')
  }

  /** None of the first `k` characters of `t` is a newline (`.` does not match one). */
  predicate NoNewline(t: string, k: nat)
    requires k <= |t|
  {
    forall i :: 0 <= i < k ==> t[i] != '\n'
  }

  /** The same test, computed from the last slash. */
  predicate IsRelativePath(t: string) {
    var k := LastSlash(t);
    0 < k < |t| - 1 && NoNewline(t, k)
  }

  lemma RelativePathIsRegex(t: string)
    ensures IsRelativePath(t) <==> RelativeRegexMatches(t)
  {
    if RelativeRegexMatches(t) {
      var k :| 0 < k < |t| - 1 && t[k] == '/' && NoNewline(t, k) && (forall i :: k < i < |t| ==> t[i] != '/');
      LastSlashUnique(t, k);
    }
  }

  datatype LinkKind = Http | Relative | Other

  /** The `if`/`elif` of `validate_links`: the web test is tried first. */
  function Classify(t: string): LinkKind {
    if IsHttpLink(t) then Http
    else if IsRelativePath(t) then Relative
    else Other
  }

  /** A link is counted relative only when it is not a web link, and then
      exactly when the relative-path pattern matches. */
  lemma ClassifyPrecedence(t: string)
    ensures Classify(t) == Http <==> IsHttpLink(t)
    ensures Classify(t) == Relative <==> !IsHttpLink(t) && RelativeRegexMatches(t)
  {
    RelativePathIsRegex(t);
  }

  /** A file name alone and a directory ending in a slash count as neither kind. */
  lemma ClassifyNeither()
    ensures Classify("foo.md") == Other
    ensures Classify("dir/") == Other
    ensures Classify("/index.md") == Other
  {
    LastSlashUnique("/index.md", 0);
  }

  /** A path with a directory counts as relative; so does a web link whose
      first character after the scheme is ')'. */
  lemma ClassifyCounted()
    ensures Classify("docs/intro.md") == Relative
    ensures Classify("https://example.com") == Http
    ensures Classify("http://)") == Relative
  {
    LastSlashUnique("docs/intro.md", 4);
    assert "https://example.com"[..8] == "https://";
    assert "http://)"[..7] == "http://";
  }

  // ---------------------------------------------------------------------------
  // The counters and error lists of validate_links
  // ---------------------------------------------------------------------------

  /** HTTP_LINK_COUNT, HTTP_LINK_ERRORS, RELATIVE_LINK_COUNT, RELATIVE_LINK_ERRORS. */
  datatype Tally = Tally(httpCount: nat, httpErrors: seq<string>, relativeCount: nat, relativeErrors: seq<string>)
  {
    /** The "Total Links Found" of the report. */
    function Total(): nat { httpCount + relativeCount }
  }

  /** What the checker asks of the outside world: the status `urlopen` reports
      for a URL (`None` when it raises), `os.path.abspath` and `os.path.isfile`. */
  datatype Host = Host(urlStatus: string -> Option<int>, absPath: string -> string, isFile: string -> bool)

  /** `os.path.join(dir, target)` for two arguments. */
  function JoinPath(dir: string, target: string): string {
    if |target| > 0 && target[0] == '/' then target
    else if dir == [] || dir[|dir| - 1] == '/' then dir + target
    else dir + "/" + target
  }

  function DigitChar(d: nat): char
    requires d < 10
  {
    "0123456789"[d]
  }

  function NatDigits(n: nat): string
    decreases n
  {
    if n < 10 then [DigitChar(n)] else NatDigits(n / 10) + [DigitChar(n % 10)]
  }

  /** `str(status)`. */
  function Decimal(i: int): string {
    if i < 0 then "-" + NatDigits(-i) else NatDigits(i)
  }

  /** The tally after one target, and whether the check went on (`false` when
      `urlopen` raised, which ends the whole run). */
  datatype Checked = Checked(tally: Tally, completed: bool)

  /** The body of the inner loop of `validate_links` for one target of the file
      whose directory is `dir`. */
  function CheckLink(t: Tally, dir: string, target: string, validateWebsite: bool, host: Host): (r: Checked)
    ensures Classify(target) == Other ==> r == Checked(t, true)
    ensures Classify(target) == Http ==>
              && r.tally.httpCount == t.httpCount + 1 && r.tally.relativeCount == t.relativeCount
              && r.tally.relativeErrors == t.relativeErrors
              && (r.completed <==> !validateWebsite || host.urlStatus(target).Some?)
              && r.tally.httpErrors == t.httpErrors +
                   (if validateWebsite && host.urlStatus(target).Some? && host.urlStatus(target).value != 200
                    then [target + " " + Decimal(host.urlStatus(target).value)] else [])
    ensures Classify(target) == Relative ==>
              var abs := host.absPath(JoinPath(dir, target));
              && r.completed
              && r.tally.relativeCount == t.relativeCount + 1 && r.tally.httpCount == t.httpCount
              && r.tally.httpErrors == t.httpErrors
              && r.tally.relativeErrors == t.relativeErrors + (if host.isFile(abs) then [] else [abs + " doesnt exist"])
    ensures r.tally.Total() == t.Total() + (if Classify(target) == Other then 0 else 1)
  {
    match Classify(target)
    case Http =>
      var counted := t.(httpCount := t.httpCount + 1);
      if !validateWebsite then Checked(counted, true)
      else if host.urlStatus(target).None? then Checked(counted, false)
      else
        var status := host.urlStatus(target).value;
        if status == 200 then Checked(counted, true)
        else Checked(counted.(httpErrors := t.httpErrors + [target + " " + Decimal(status)]), true)
    case Relative =>
      var abs := host.absPath(JoinPath(dir, target));
      var counted := t.(relativeCount := t.relativeCount + 1);
      if host.isFile(abs) then Checked(counted, true)
      else Checked(counted.(relativeErrors := t.relativeErrors + [abs + " doesnt exist"]), true)
    case Other => Checked(t, true)
  }

  /** The loop of `validate_links` over the targets of one file, stopping at
      the first `urlopen` that raises. */
  function CheckLinks(t: Tally, dir: string, targets: seq<string>, validateWebsite: bool, host: Host): Checked
    decreases |targets|
  {
    if targets == [] then Checked(t, true)
    else
      var r := CheckLinks(t, dir, targets[..|targets| - 1], validateWebsite, host);
      if !r.completed then r
      else CheckLink(r.tally, dir, targets[|targets| - 1], validateWebsite, host)
  }

  /** How many of `targets` are classified as `kind`. */
  function CountKind(targets: seq<string>, kind: LinkKind): nat
    decreases |targets|
  {
    if targets == [] then 0
    else CountKind(targets[..|targets| - 1], kind) + (if Classify(targets[|targets| - 1]) == kind then 1 else 0)
  }

  /** Over one file: the counters grow by the number of targets of their kind
      among those looked at, which is all of them unless a `urlopen` raised on
      the web link at `stop`; the error lists only grow at their end, by at
      most one entry per counted link, and without website validation the web
      error list does not change and nothing raises. */
  lemma {:induction false} CheckLinksTotals(t: Tally, dir: string, targets: seq<string>, validateWebsite: bool, host: Host)
    returns (stop: nat)
    ensures var r := CheckLinks(t, dir, targets, validateWebsite, host);
      && stop <= |targets|
      && (r.completed <==> stop == |targets|)
      && (!r.completed ==>
            validateWebsite && Classify(targets[stop]) == Http && host.urlStatus(targets[stop]) == None)
      && var seen := if r.completed then targets else targets[..stop + 1];
      && r.tally.httpCount == t.httpCount + CountKind(seen, Http)
      && r.tally.relativeCount == t.relativeCount + CountKind(seen, Relative)
      && t.httpErrors <= r.tally.httpErrors && t.relativeErrors <= r.tally.relativeErrors
      && |r.tally.httpErrors| - |t.httpErrors| <= r.tally.httpCount - t.httpCount
      && |r.tally.relativeErrors| - |t.relativeErrors| <= r.tally.relativeCount - t.relativeCount
      && (!validateWebsite ==> r.completed && r.tally.httpErrors == t.httpErrors)
    decreases |targets|
  {
    if targets == [] {
      stop := 0;
    } else {
      var n := |targets| - 1;
      var prefix := targets[..n];
      var before := CheckLinksTotals(t, dir, prefix, validateWebsite, host);
      var r := CheckLinks(t, dir, prefix, validateWebsite, host);
      if !r.completed {
        stop := before;
        assert targets[..stop + 1] == prefix[..stop + 1];
      } else {
        var last := CheckLink(r.tally, dir, targets[n], validateWebsite, host);
        assert targets[..n] == prefix;
        stop := if last.completed then |targets| else n;
        if !last.completed {
          assert targets[..stop + 1] == targets;
        }
      }
    }
  }

  /** The checker's four module-level globals, updated in place. */
  class LinkChecker {
    var httpCount: nat
    var httpErrors: seq<string>
    var relativeCount: nat
    var relativeErrors: seq<string>

    constructor ()
      ensures Current() == Tally(0, [], 0, [])
    {
      httpCount, httpErrors, relativeCount, relativeErrors := 0, [], 0, [];
    }

    function Current(): Tally
      reads this
    {
      Tally(httpCount, httpErrors, relativeCount, relativeErrors)
    }

    /** `validate_links(abs_file_path, validate_website)` over the link targets
        the file's lines yield, in order. `completed` is `false` when a
        `urlopen` raised, which leaves the tally as it was at that link. */
    method ValidateLinks(absFilePath: string, targets: seq<string>, validateWebsite: bool, host: Host)
      returns (completed: bool)
      modifies this
      ensures var r := CheckLinks(old(Current()), GetPath(absFilePath), targets, validateWebsite, host);
        Current() == r.tally && completed == r.completed
    {
      var dir := GetPath(absFilePath);
      for i := 0 to |targets|
        invariant var r := CheckLinks(old(Current()), dir, targets[..i], validateWebsite, host);
          Current() == r.tally && r.completed
      {
        var target := targets[i];
        ghost var next := CheckLink(Current(), dir, target, validateWebsite, host);
        assert CheckLinks(old(Current()), dir, targets[..i + 1], validateWebsite, host) == next by {
          assert targets[..i + 1][..i] == targets[..i];
        }
        match Classify(target)
        case Http =>
          httpCount := httpCount + 1;
          if validateWebsite {
            var status := host.urlStatus(target);
            if status.None? {
              assert Current() == next.tally && !next.completed;
              assert targets[..i + 1] + targets[i + 1..] == targets;
              CheckLinksStopped(old(Current()), dir, targets[..i + 1], targets[i + 1..], validateWebsite, host);
              return false;
            }
            if status.value != 200 {
              httpErrors := httpErrors + [target + " " + Decimal(status.value)];
            }
          }
        case Relative =>
          relativeCount := relativeCount + 1;
          var abs := host.absPath(JoinPath(dir, target));
          if !host.isFile(abs) {
            relativeErrors := relativeErrors + [abs + " doesnt exist"];
          }
        case Other =>
      }
      assert targets[..|targets|] == targets;
      completed := true;
    }
  }

  /** Once a prefix raised, later targets change nothing. */
  lemma {:induction false} CheckLinksStopped(t: Tally, dir: string, done: seq<string>, later: seq<string>,
                                             validateWebsite: bool, host: Host)
    requires !CheckLinks(t, dir, done, validateWebsite, host).completed
    ensures CheckLinks(t, dir, done + later, validateWebsite, host) == CheckLinks(t, dir, done, validateWebsite, host)
    decreases |later|
  {
    if later == [] {
      assert done + later == done;
    } else {
      var n := |later| - 1;
      assert (done + later)[..|done + later| - 1] == done + later[..n];
      CheckLinksStopped(t, dir, done, later[..n], validateWebsite, host);
    }
  }

  /** Two files checked one after the other: the report's total is the number
      of counted links in both, when nothing raised. */
  lemma ReportTotal(dirA: string, a: seq<string>, dirB: string, b: seq<string>, validateWebsite: bool, host: Host)
    requires CheckLinks(Tally(0, [], 0, []), dirA, a, validateWebsite, host).completed
    ensures var first := CheckLinks(Tally(0, [], 0, []), dirA, a, validateWebsite, host);
      var second := CheckLinks(first.tally, dirB, b, validateWebsite, host);
      second.completed ==>
        second.tally.Total() == CountKind(a, Http) + CountKind(a, Relative) + CountKind(b, Http) + CountKind(b, Relative)
  {
    var first := CheckLinks(Tally(0, [], 0, []), dirA, a, validateWebsite, host);
    var s1 := CheckLinksTotals(Tally(0, [], 0, []), dirA, a, validateWebsite, host);
    var s2 := CheckLinksTotals(first.tally, dirB, b, validateWebsite, host);
  }
}
