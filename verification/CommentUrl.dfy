/** Decimal numerals. */
module Decimal {

  predicate IsDigit(c: char) {
    '0' <= c <= '9'
  }

  predicate AllDigits(s: string) {
    forall i :: 0 <= i < |s| ==> IsDigit(s[i])
  }

  function Digit(d: nat): (c: char)
    requires d < 10
    ensures IsDigit(c)
  {
    '0' + d as char
  }

  function DigitValue(c: char): (d: nat)
    requires IsDigit(c)
    ensures d < 10
  {
    c as int - '0' as int
  }

  /** The decimal numeral of a natural number, without leading zeros. */
  function Print(n: nat): (s: string)
    ensures s != [] && AllDigits(s)
  {
    if n < 10 then [Digit(n)] else Print(n / 10) + [Digit(n % 10)]
  }

  /** The value of a digit string, as `parseInt` in base ten reads it. */
  function Value(s: string): nat
    requires AllDigits(s)
  {
    if s == [] then 0 else 10 * Value(s[..|s| - 1]) + DigitValue(s[|s| - 1])
  }

  /** A number as a template string prints it. */
  function PrintInt(n: int): string {
    if n < 0 then "-" + Print(-n) else Print(n)
  }

  lemma {:induction false} ValueOfPrint(n: nat)
    ensures Value(Print(n)) == n
  {
    if n >= 10 {
      ValueOfPrint(n / 10);
      assert Print(n)[..|Print(n)| - 1] == Print(n / 10);
    }
  }
}

/** Repository names and comment URLs: splitting, printing and parsing. */
module CommentUrl {
  import opened Domain
  import Decimal

  // ---------------------------------------------------------------- splitRepo

  function IndexFrom(s: string, c: char, from: nat): (i: nat)
    requires from <= |s|
    ensures from <= i <= |s| && (i < |s| ==> s[i] == c) && forall j :: from <= j < i ==> s[j] != c
    decreases |s| - from
  {
    if from == |s| || s[from] == c then from else IndexFrom(s, c, from + 1)
  }

  /** The first place of a character, or the length of the text. */
  function IndexOf(s: string, c: char): (i: nat)
    ensures i <= |s| && (i < |s| ==> s[i] == c) && forall j :: 0 <= j < i ==> s[j] != c
  {
    IndexFrom(s, c, 0)
  }

  /** Two non-empty halves around the only slash of the full name; anything else is refused. */
  function SplitRepo(fullName: string): (r: Option<(string, string)>)
    ensures r.Some? ==> fullName == r.value.0 + "/" + r.value.1
    ensures r.Some? ==> r.value.0 != "" && r.value.1 != "" && '/' !in r.value.0 && '/' !in r.value.1
  {
    var i := IndexOf(fullName, '/');
    if 0 < i < |fullName| - 1 && '/' !in fullName[i + 1..] then Some((fullName[..i], fullName[i + 1..])) else None
  }

  // ---------------------------------------------------------------- comment URLs

  const SITE := "https://github.com/"
  const ANCHOR := "#issuecomment-"

  datatype ParsedUrl = ParsedUrl(owner: string, repo: string, commentId: nat)

  function BuildCommentUrl(fullName: string, number: int, commentId: int): string {
    SITE + fullName + "/pull/" + Decimal.PrintInt(number) + ANCHOR + Decimal.PrintInt(commentId)
  }

  predicate Numeral(s: string) {
    s != "" && Decimal.AllDigits(s)
  }

  predicate Segment(s: string) {
    s != "" && '/' !in s
  }

  /** The regular expression: what the parser accepts, and the groups it captures. */
  predicate Matches(url: string, owner: string, repo: string, kind: string, number: string, id: string) {
    && Segment(owner) && Segment(repo) && (kind == "issues" || kind == "pull") && Numeral(number) && Numeral(id)
    && url == SITE + (owner + ("/" + (repo + ("/" + (kind + ("/" + (number + (ANCHOR + id))))))))
  }

  predicate StartsWith(s: string, p: string) {
    |p| <= |s| && s[..|p|] == p
  }

  /** The length of the digits a text begins with. */
  function DigitRun(s: string): (n: nat)
    ensures n <= |s| && Decimal.AllDigits(s[..n]) && (n < |s| ==> !Decimal.IsDigit(s[n]))
  {
    if s == "" || !Decimal.IsDigit(s[0]) then 0
    else
      var n := 1 + DigitRun(s[1..]);
      assert s[1..][..n - 1] == s[..n][1..];
      n
  }

  /** Number, anchor and comment id. */
  function ParseTail(s: string): Option<nat> {
    var n := DigitRun(s);
    if n == 0 || !StartsWith(s[n..], ANCHOR) || !Numeral(s[n + |ANCHOR|..]) then None
    else Some(Decimal.Value(s[n + |ANCHOR|..]))
  }

  /** What follows the kind of page, if the kind is one of the two. */
  function AfterKind(s: string): Option<string> {
    if StartsWith(s, "issues/") then Some(s[7..]) else if StartsWith(s, "pull/") then Some(s[5..]) else None
  }

  function ParseAfterRepo(owner: string, repo: string, s: string): Option<ParsedUrl> {
    match AfterKind(s)
    case None => None
    case Some(tail) =>
      match ParseTail(tail)
      case None => None
      case Some(id) => Some(ParsedUrl(owner, repo, id))
  }

  function ParseCommentUrl(url: string): Option<ParsedUrl> {
    if !StartsWith(url, SITE) then None
    else
      var path := url[|SITE|..];
      var i := IndexOf(path, '/');
      if i == 0 || i == |path| then None
      else
        var rest := path[i + 1..];
        var j := IndexOf(rest, '/');
        if j == 0 || j == |rest| then None else ParseAfterRepo(path[..i], rest[..j], rest[j + 1..])
  }

  lemma IndexOfAfter(a: string, c: char, b: string)
    requires c !in a
    ensures IndexOf(a + ([c] + b), c) == |a|
  {
    var s := a + ([c] + b);
    assert s[|a|] == c;
    forall j | 0 <= j < |a| ensures s[j] != c { assert s[j] == a[j]; }
  }

  lemma {:induction false} DigitRunOf(a: string, b: string)
    requires Decimal.AllDigits(a) && (b != "" ==> !Decimal.IsDigit(b[0]))
    ensures DigitRun(a + b) == |a|
  {
    if a == "" {
      assert a + b == b;
    } else {
      DigitRunOf(a[1..], b);
      assert (a + b)[1..] == a[1..] + b;
    }
  }

  lemma TailParses(number: string, id: string)
    requires Numeral(number) && Numeral(id)
    ensures ParseTail(number + (ANCHOR + id)) == Some(Decimal.Value(id))
  {
    var s := number + (ANCHOR + id);
    DigitRunOf(number, ANCHOR + id);
    assert s[|number|..] == ANCHOR + id && s[|number| + |ANCHOR|..] == id;
    assert (ANCHOR + id)[..|ANCHOR|] == ANCHOR;
  }

  lemma KindParses(kind: string, tail: string)
    requires kind == "issues" || kind == "pull"
    ensures AfterKind(kind + ("/" + tail)) == Some(tail)
  {
    var s := kind + ("/" + tail);
    assert s == (kind + "/") + tail && (kind + "/") + tail == s;
    assert s[..|kind| + 1] == kind + "/" && s[|kind| + 1..] == tail;
    if kind == "pull" { assert s[0] == 'p'; }
  }

  lemma PathParses(owner: string, repo: string, afterRepo: string)
    requires Segment(owner) && Segment(repo)
    ensures ParseCommentUrl(SITE + (owner + ("/" + (repo + ("/" + afterRepo)))))
      == ParseAfterRepo(owner, repo, afterRepo)
  {
    var rest := repo + ("/" + afterRepo);
    var path := owner + ("/" + rest);
    assert (SITE + path)[|SITE|..] == path && (SITE + path)[..|SITE|] == SITE;
    IndexOfAfter(owner, '/', rest);
    IndexOfAfter(repo, '/', afterRepo);
    assert path[..|owner|] == owner && path[|owner| + 1..] == rest;
    assert rest[..|repo|] == repo && rest[|repo| + 1..] == afterRepo;
  }

  /** Everything the regular expression matches is parsed, with exactly the captured groups. */
  lemma MatchesParse(url: string, owner: string, repo: string, kind: string, number: string, id: string)
    requires Matches(url, owner, repo, kind, number, id)
    ensures ParseCommentUrl(url) == Some(ParsedUrl(owner, repo, Decimal.Value(id)))
  {
    var tail := number + (ANCHOR + id);
    KindParses(kind, tail);
    TailParses(number, id);
    PathParses(owner, repo, kind + ("/" + tail));
  }

  lemma TailIsParsed(s: string) returns (number: string, id: string)
    requires ParseTail(s).Some?
    ensures Numeral(number) && Numeral(id) && s == number + (ANCHOR + id) && ParseTail(s) == Some(Decimal.Value(id))
  {
    var n := DigitRun(s);
    number, id := s[..n], s[n + |ANCHOR|..];
    assert s[n..] == s[n..][..|ANCHOR|] + s[n..][|ANCHOR|..] && s[n..][|ANCHOR|..] == id;
  }

  lemma KindIsParsed(s: string) returns (kind: string)
    requires AfterKind(s).Some?
    ensures (kind == "issues" || kind == "pull") && s == kind + ("/" + AfterKind(s).value)
  {
    kind := if StartsWith(s, "issues/") then "issues" else "pull";
    assert s == s[..|kind| + 1] + s[|kind| + 1..];
    assert s[..|kind| + 1] == kind + "/";
  }

  lemma SlashSplits(s: string)
    requires IndexOf(s, '/') < |s|
    ensures var i := IndexOf(s, '/'); s == s[..i] + ("/" + s[i + 1..]) && '/' !in s[..i]
  {
    SplitsAt(s, IndexOf(s, '/'));
  }

  lemma SplitsAt(s: string, i: nat)
    requires i < |s| && s[i] == '/' && forall j :: 0 <= j < i ==> s[j] != '/'
    ensures s == s[..i] + ("/" + s[i + 1..]) && '/' !in s[..i]
  {
    assert s[..i] + ("/" + s[i + 1..]) == s[..i] + [s[i]] + s[i + 1..];
  }

  /** Whatever is parsed matches the regular expression, with the parsed groups. */
  lemma ParsedMatches(url: string) returns (kind: string, number: string, id: string)
    requires ParseCommentUrl(url).Some?
    ensures var p := ParseCommentUrl(url).value;
      Matches(url, p.owner, p.repo, kind, number, id) && p.commentId == Decimal.Value(id)
  {
    var path := url[|SITE|..];
    var rest := path[IndexOf(path, '/') + 1..];
    var s := rest[IndexOf(rest, '/') + 1..];
    kind := KindIsParsed(s);
    number, id := TailIsParsed(AfterKind(s).value);
    assert url == SITE + path && path[..IndexOf(path, '/')] != "" && rest[..IndexOf(rest, '/')] != "";
    SlashSplits(path);
    SlashSplits(rest);
  }

  /** A full name splits exactly into the two segments around its only slash. */
  lemma SplitsExactly(fullName: string, owner: string, repo: string)
    ensures SplitRepo(fullName) == Some((owner, repo)) <==>
      Segment(owner) && Segment(repo) && fullName == owner + ("/" + repo)
  {
    if Segment(owner) && Segment(repo) && fullName == owner + ("/" + repo) {
      IndexOfAfter(owner, '/', repo);
      assert fullName[..|owner|] == owner && fullName[|owner| + 1..] == repo;
    }
    if SplitRepo(fullName) == Some((owner, repo)) { SlashSplits(fullName); }
  }

  /** The last segment of a path is determined. */
  lemma LastSegment(a: string, x: string, b: string, y: string)
    requires '/' !in x && '/' !in y && a + ("/" + x) == b + ("/" + y)
    ensures a == b && x == y
  {
    var s := a + ("/" + x);
    NoSlashAfter(a, x);
    NoSlashAfter(b, y);
    assert |a| == |b|;
    assert s[..|a|] == a && s[..|a|] == b && s[|a| + 1..] == x && s[|a| + 1..] == y;
  }

  lemma NoSlashAfter(a: string, x: string)
    requires '/' !in x
    ensures var s := a + ("/" + x); s[|a|] == '/' && forall k :: |a| < k < |s| ==> s[k] != '/'
  {
    var s := a + ("/" + x);
    forall k | |a| < k < |s| ensures s[k] != '/' { assert s[k] == x[k - |a| - 1]; }
  }

  lemma PrintedHasNoSlash(n: int)
    ensures '/' !in Decimal.PrintInt(n) && Decimal.PrintInt(n) != ""
    ensures n < 0 <==> !Decimal.IsDigit(Decimal.PrintInt(n)[0])
    ensures n >= 0 <==> Decimal.AllDigits(Decimal.PrintInt(n))
  {
  }

  /** Numbers in front of an anchor are determined. */
  lemma SameTail(number: string, id: string, n: int, commentId: int)
    requires Numeral(number) && Numeral(id)
    requires number + (ANCHOR + id) == Decimal.PrintInt(n) + (ANCHOR + Decimal.PrintInt(commentId))
    ensures n >= 0 && commentId >= 0 && id == Decimal.PrintInt(commentId)
  {
    var s, printed := number + (ANCHOR + id), Decimal.PrintInt(n);
    PrintedHasNoSlash(n);
    PrintedHasNoSlash(commentId);
    assert s[0] == number[0] && s[0] == printed[0];
    DigitRunOf(number, ANCHOR + id);
    DigitRunOf(printed, ANCHOR + Decimal.PrintInt(commentId));
    assert s[|number| + |ANCHOR|..] == id && s[|number| + |ANCHOR|..] == Decimal.PrintInt(commentId);
  }

  /** Parsing a printed comment URL succeeds exactly for a full name that splits and for numbers that are not
      negative, and gives back what `SplitRepo` gives and the comment id. */
  lemma UrlRoundTrip(fullName: string, number: int, commentId: int)
    ensures ParseCommentUrl(BuildCommentUrl(fullName, number, commentId)) ==
      if SplitRepo(fullName).Some? && number >= 0 && commentId >= 0
      then Some(ParsedUrl(SplitRepo(fullName).value.0, SplitRepo(fullName).value.1, commentId)) else None
  {
    if SplitRepo(fullName).Some? && number >= 0 && commentId >= 0 {
      PrintedParses(fullName, number, commentId);
    } else {
      ParsedWasPrintable(fullName, number, commentId);
    }
  }

  lemma PrintedParses(fullName: string, number: nat, commentId: nat)
    requires SplitRepo(fullName).Some?
    ensures ParseCommentUrl(BuildCommentUrl(fullName, number, commentId))
      == Some(ParsedUrl(SplitRepo(fullName).value.0, SplitRepo(fullName).value.1, commentId))
  {
    var (owner, repo) := SplitRepo(fullName).value;
    var n, id := Decimal.Print(number), Decimal.Print(commentId);
    SplitsExactly(fullName, owner, repo);
    assert BuildCommentUrl(fullName, number, commentId)
      == SITE + (owner + ("/" + (repo + ("/" + ("pull" + ("/" + (n + (ANCHOR + id))))))));
    MatchesParse(BuildCommentUrl(fullName, number, commentId), owner, repo, "pull", n, id);
    Decimal.ValueOfPrint(commentId);
  }

  /** Cancels the site and the kind of page. */
  lemma SameRepository(fullName: string, owner: string, repo: string, kind: string)
    requires kind == "issues" || kind == "pull"
    requires SITE + (owner + ("/" + (repo + ("/" + kind)))) == SITE + (fullName + ("/" + "pull"))
    ensures fullName == owner + ("/" + repo)
  {
    var a, b := owner + ("/" + (repo + ("/" + kind))), fullName + ("/" + "pull");
    assert (SITE + a)[|SITE|..] == a && (SITE + b)[|SITE|..] == b;
    assert a == (owner + ("/" + repo)) + ("/" + kind);
    LastSegment(owner + ("/" + repo), kind, fullName, "pull");
  }

  lemma Regrouped(owner: string, repo: string, kind: string, tail: string)
    ensures SITE + (owner + ("/" + (repo + ("/" + (kind + ("/" + tail))))))
      == (SITE + (owner + ("/" + (repo + ("/" + kind))))) + ("/" + tail)
  {
  }

  lemma RegroupedPrint(fullName: string, n: string, id: string)
    ensures SITE + fullName + "/pull/" + n + ANCHOR + id
      == (SITE + (fullName + ("/" + "pull"))) + ("/" + (n + (ANCHOR + id)))
  {
  }

  lemma ParsedWasPrintable(fullName: string, n: int, commentId: int)
    ensures ParseCommentUrl(BuildCommentUrl(fullName, n, commentId)).Some? ==>
      SplitRepo(fullName).Some? && n >= 0 && commentId >= 0
  {
    var parsed := ParseCommentUrl(BuildCommentUrl(fullName, n, commentId));
    if parsed.Some? {
      var kind, number, id := ParsedMatches(BuildCommentUrl(fullName, n, commentId));
      MatchedWasPrintable(fullName, n, commentId, parsed.value.owner, parsed.value.repo, kind, number, id);
    }
  }

  lemma MatchedWasPrintable(fullName: string, n: int, commentId: int, owner: string, repo: string, kind: string,
                            number: string, id: string)
    requires Matches(BuildCommentUrl(fullName, n, commentId), owner, repo, kind, number, id)
    ensures SplitRepo(fullName).Some? && n >= 0 && commentId >= 0
  {
    var printed := Decimal.PrintInt(n) + (ANCHOR + Decimal.PrintInt(commentId));
    PrintedHasNoSlash(n);
    PrintedHasNoSlash(commentId);
    RegroupedPrint(fullName, Decimal.PrintInt(n), Decimal.PrintInt(commentId));
    Regrouped(owner, repo, kind, number + (ANCHOR + id));
    LastSegment(SITE + (owner + ("/" + (repo + ("/" + kind)))), number + (ANCHOR + id),
                SITE + (fullName + ("/" + "pull")), printed);
    SameTail(number, id, n, commentId);
    SameRepository(fullName, owner, repo, kind);
    SplitsExactly(fullName, owner, repo);
  }
}
