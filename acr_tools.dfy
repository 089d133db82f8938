/**
 * The string slicing of the Docker extension's Azure Container Registry
 * helpers (`acrTools.js`): the subscription id and the resource-group name
 * taken from an Azure resource id, and the parts of a blob URL.
 *
 * `String.prototype.search` takes a regular expression. The patterns with no
 * metacharacter (`'/resourceGroups/'`, `'https://'`, `'[?]'`, which is the
 * class holding `?`) find what `indexOf` finds; `'.blob'` and `'.blob.'` start
 * and end with a `.` wildcard, which matches any character but a line
 * terminator, and are modelled with their wildcards.
 */
module AcrTools {
  import opened Wrappers
  import opened JsString

  // ---------------------------------------------------------------------------
  // `search` with a pattern of literal characters and `.` wildcards.

  datatype Atom = Char(c: char) | AnyChar

  predicate IsLineTerminator(c: char) {
    c == '\n' || c == '\r' || c == '\U{2028}' || c == '\U{2029}'
  }

  predicate AtomMatches(a: Atom, c: char) {
    match a
    case Char(d) => c == d
    case AnyChar => !IsLineTerminator(c)
  }

  predicate MatchesAt(s: String, pat: seq<Atom>, i: int) {
    0 <= i && i + |pat| <= |s| && forall k :: 0 <= k < |pat| ==> AtomMatches(pat[k], s[i + k])
  }

  function SearchFrom(s: String, pat: seq<Atom>, from: nat): (r: int)
    requires from <= |s|
    ensures r == -1 || (from <= r && MatchesAt(s, pat, r))
    ensures r == -1 ==> forall j :: from <= j <= |s| ==> !MatchesAt(s, pat, j)
    ensures r >= 0 ==> forall j :: from <= j < r ==> !MatchesAt(s, pat, j)
    decreases |s| - from
  {
    if MatchesAt(s, pat, from) then from
    else if from == |s| then -1
    else SearchFrom(s, pat, from + 1)
  }

  /** `s.search(pattern)`: the first position where the pattern matches, or -1. */
  function Search(s: String, pat: seq<Atom>): (r: int)
    ensures r == -1 <==> forall j :: 0 <= j <= |s| ==> !MatchesAt(s, pat, j)
    ensures r >= 0 ==> MatchesAt(s, pat, r) && forall j :: 0 <= j < r ==> !MatchesAt(s, pat, j)
  {
    SearchFrom(s, pat, 0)
  }

  /** The pattern `.blob`. */
  const DotBlob: seq<Atom> := [AnyChar, Char('b'), Char('l'), Char('o'), Char('b')]

  /** The pattern `.blob.`. */
  const DotBlobDot: seq<Atom> := DotBlob + [AnyChar]

  lemma SearchFirst(s: String, pat: seq<Atom>, p: int)
    requires MatchesAt(s, pat, p)
    requires forall q :: 0 <= q < p ==> !MatchesAt(s, pat, q)
    ensures Search(s, pat) == p
  {
  }

  lemma IndexOfFirst(s: String, sub: String, p: int)
    requires OccursAt(s, sub, p)
    requires forall q :: 0 <= q < p ==> !OccursAt(s, sub, q)
    ensures IndexOf(s, sub) == p
  {
  }

  /** A mismatch at one position rules an occurrence out. */
  lemma NotOccursAt(s: String, sub: String, q: int, k: int)
    requires 0 <= k < |sub| && 0 <= q && q + k < |s| && s[q + k] != sub[k]
    ensures !OccursAt(s, sub, q)
  {
    if q + |sub| <= |s| {
      assert s[q..q + |sub|][k] == s[q + k];
    }
  }

  /** A mismatch at one position rules a match out. */
  lemma NotMatchesAt(s: String, pat: seq<Atom>, q: int, k: int)
    requires 0 <= k < |pat| && 0 <= q && q + k < |s| && !AtomMatches(pat[k], s[q + k])
    ensures !MatchesAt(s, pat, q)
  {
  }

  // ---------------------------------------------------------------------------
  // Resource ids.

  /** The subscription id of `getSubscriptionFromRegistry`: from after the leading `/subscriptions/` to the first `/resourceGroups/`. */
  function SubscriptionId(id: String): String {
    Slice(id, |"/subscriptions/"|, IndexOf(id, "/resourceGroups/"))
  }

  /** `getResourceGroupName`: from after the first `resourceGroups/` to the first `/providers/`. */
  function ResourceGroupName(id: String): String {
    Slice(id, IndexOf(id, "resourceGroups/") + |"resourceGroups/"|, IndexOf(id, "/providers/"))
  }

  /** An Azure resource id `/subscriptions/<sub>/resourceGroups/<group>/providers/<rest>`. */
  function ResourceId(sub: String, group: String, rest: String): String {
    "/subscriptions/" + sub + "/resourceGroups/" + group + "/providers/" + rest
  }

  /** The characters of a subscription id, a GUID. */
  predicate IsGuidChar(c: char) {
    ('0' <= c <= '9') || ('a' <= c <= 'f') || ('A' <= c <= 'F') || c == '-'
  }

  predicate IsGuidText(s: String) {
    forall k :: 0 <= k < |s| ==> IsGuidChar(s[k])
  }

  predicate NoChar(s: String, c: char) {
    forall k :: 0 <= k < |s| ==> s[k] != c
  }

  lemma SubscriptionsLiteral()
    ensures forall k :: 1 <= k < 14 ==> "/subscriptions/"[k] != '/'
    ensures "/subscriptions/"[1] == 's' && "/subscriptions/"[6] == 'r' && "/subscriptions/"[7] == 'i'
    ensures forall k :: 0 <= k < 15 && k != 6 ==> "/subscriptions/"[k] != 'r'
  {
  }

  lemma ResourceGroupsLiteral()
    ensures forall k :: 1 <= k < 15 ==> "/resourceGroups/"[k] != '/'
  {
  }

  /** Where the parts of a resource id sit. */
  lemma ResourceIdLayout(sub: String, group: String, rest: String)
    ensures var id := ResourceId(sub, group, rest);
            var g := 31 + |sub|;
            var e := g + |group|;
            |id| == e + 11 + |rest|
            && id[..15] == "/subscriptions/" && id[15..15 + |sub|] == sub
            && id[15 + |sub|..g] == "/resourceGroups/" && id[g..e] == group
            && id[e..e + 11] == "/providers/"
  {
    var id := ResourceId(sub, group, rest);
    var x2 := "/subscriptions/" + sub;
    var x3 := x2 + "/resourceGroups/";
    var x4 := x3 + group;
    var x5 := x4 + "/providers/";
    assert id == x5 + rest;
    assert id[..|x5|] == x5;
    assert x5[..|x4|] == x4 && x5[|x4|..] == "/providers/";
    assert x4[..|x3|] == x3 && x4[|x3|..] == group;
    assert x3[..|x2|] == x2 && x3[|x2|..] == "/resourceGroups/";
    assert x2[..15] == "/subscriptions/" && x2[15..] == sub;
  }

  /** Facts about the subscription part of a resource id. */
  predicate SubscriptionPart(id: String, sub: String) {
    |id| > 16 + |sub| && id[..15] == "/subscriptions/" && id[15..15 + |sub|] == sub
    && id[15 + |sub|] == '/' && id[16 + |sub|] == 'r' && IsGuidText(sub)
  }

  lemma SubscriptionPartOf(sub: String, group: String, rest: String)
    requires IsGuidText(sub)
    ensures SubscriptionPart(ResourceId(sub, group, rest), sub)
  {
    var id := ResourceId(sub, group, rest);
    ResourceIdLayout(sub, group, rest);
    var p := 15 + |sub|;
    assert id[p] == id[p..p + 16][0] == '/';
    assert id[p + 1] == id[p..p + 16][1] == 'r';
  }

  /** Before the end of the subscription part, no `/resourceGroups/` and no `/providers/` start. */
  lemma NoneInSubscriptionPart(id: String, sub: String, pat: String)
    requires SubscriptionPart(id, sub)
    requires pat == "/resourceGroups/" || pat == "/providers/"
    ensures forall q :: 0 <= q < 15 + |sub| ==> !OccursAt(id, pat, q)
  {
    SubscriptionsLiteral();
    assert pat[0] == '/' && pat[1] != 's' && pat[1] != '-' && pat[1] != '/';
    assert !IsGuidChar(pat[1]);
    forall q | 0 <= q < 15 + |sub| ensures !OccursAt(id, pat, q) {
      if q == 0 {
        assert id[1] == id[..15][1] == 's';
        NotOccursAt(id, pat, q, 1);
      } else if q < 14 {
        assert id[q] == id[..15][q] == "/subscriptions/"[q];
        NotOccursAt(id, pat, q, 0);
      } else if q == 14 {
        if |sub| > 0 {
          assert id[15] == id[15..15 + |sub|][0] == sub[0];
          assert IsGuidChar(id[15]);
        } else {
          assert id[15] == '/';
        }
        NotOccursAt(id, pat, q, 1);
      } else {
        assert id[q] == id[15..15 + |sub|][q - 15] == sub[q - 15];
        assert IsGuidChar(id[q]);
        NotOccursAt(id, pat, q, 0);
      }
    }
  }

  /** The slice yields the subscription of any resource id whose subscription is a GUID. */
  lemma SubscriptionIdOfResourceId(sub: String, group: String, rest: String)
    requires IsGuidText(sub)
    ensures SubscriptionId(ResourceId(sub, group, rest)) == sub
  {
    var id := ResourceId(sub, group, rest);
    var p := 15 + |sub|;
    ResourceIdLayout(sub, group, rest);
    SubscriptionPartOf(sub, group, rest);
    NoneInSubscriptionPart(id, sub, "/resourceGroups/");
    IndexOfFirst(id, "/resourceGroups/", p);
    SliceWithin(id, 15, p);
  }

  /** In a resource id, the first `resourceGroups/` is the one after the subscription. */
  lemma ResourceGroupsFound(sub: String, group: String, rest: String)
    requires IsGuidText(sub)
    ensures IndexOf(ResourceId(sub, group, rest), "resourceGroups/") == 16 + |sub|
  {
    var id := ResourceId(sub, group, rest);
    var g := 16 + |sub|;
    ResourceIdLayout(sub, group, rest);
    SubscriptionPartOf(sub, group, rest);
    assert id[g..g + 15] == id[g - 1..g + 15][1..] == "resourceGroups/";
    NoResourceGroupsBefore(id, sub);
    IndexOfFirst(id, "resourceGroups/", g);
  }

  /** Before the `resourceGroups/` after the subscription, there is none. */
  lemma NoResourceGroupsBefore(id: String, sub: String)
    requires SubscriptionPart(id, sub)
    ensures forall q :: 0 <= q < 16 + |sub| ==> !OccursAt(id, "resourceGroups/", q)
  {
    SubscriptionsLiteral();
    forall q | 0 <= q < 16 + |sub| ensures !OccursAt(id, "resourceGroups/", q) {
      if q == 6 {
        assert id[7] == id[..15][7] == 'i';
        NotOccursAt(id, "resourceGroups/", q, 1);
      } else if q < 15 {
        assert id[q] == id[..15][q] == "/subscriptions/"[q];
        NotOccursAt(id, "resourceGroups/", q, 0);
      } else if q < 15 + |sub| {
        assert id[q] == id[15..15 + |sub|][q - 15] == sub[q - 15];
        assert IsGuidChar(id[q]);
        NotOccursAt(id, "resourceGroups/", q, 0);
      } else {
        assert id[q] == '/';
        NotOccursAt(id, "resourceGroups/", q, 0);
      }
    }
  }

  /** In a resource id whose group is a path segment other than `providers`, the first `/providers/` is the one after the group. */
  lemma ProvidersFound(sub: String, group: String, rest: String)
    requires IsGuidText(sub) && NoChar(group, '/') && group != "providers"
    ensures IndexOf(ResourceId(sub, group, rest), "/providers/") == 31 + |sub| + |group|
  {
    var id := ResourceId(sub, group, rest);
    var g := 31 + |sub|;
    var e := g + |group|;
    ResourceIdLayout(sub, group, rest);
    SubscriptionPartOf(sub, group, rest);
    NoneInSubscriptionPart(id, sub, "/providers/");
    NoProvidersInGroupPart(id, sub, group);
    IndexOfFirst(id, "/providers/", e);
  }

  /** Between the subscription and the end of the group, no `/providers/` starts. */
  lemma NoProvidersInGroupPart(id: String, sub: String, group: String)
    requires var g := 31 + |sub|;
             g + |group| + 11 <= |id| && id[15 + |sub|..g] == "/resourceGroups/" && id[g..g + |group|] == group
             && id[g + |group|] == '/'
    requires NoChar(group, '/') && group != "providers"
    ensures forall q :: 15 + |sub| <= q < 31 + |sub| + |group| ==> !OccursAt(id, "/providers/", q)
  {
    var g := 31 + |sub|;
    ResourceGroupsLiteral();
    forall q | 15 + |sub| <= q < g + |group| ensures !OccursAt(id, "/providers/", q) {
      if q == 15 + |sub| {
        assert id[q + 1] == id[15 + |sub|..g][1] == 'r';
        NotOccursAt(id, "/providers/", q, 1);
      } else if q < g - 1 {
        assert id[q] == id[15 + |sub|..g][q - 15 - |sub|] == "/resourceGroups/"[q - 15 - |sub|];
        NotOccursAt(id, "/providers/", q, 0);
      } else if q == g - 1 {
        ProvidersAfterSlash(id, g, group);
      } else {
        assert id[q] == id[g..g + |group|][q - g] == group[q - g];
        NotOccursAt(id, "/providers/", q, 0);
      }
    }
  }

  /** A `/` followed by a segment other than `providers` does not start `/providers/`. */
  lemma ProvidersAfterSlash(s: String, g: int, group: String)
    requires 1 <= g && g + |group| < |s| && s[g..g + |group|] == group && s[g + |group|] == '/'
    requires NoChar(group, '/') && group != "providers"
    ensures !OccursAt(s, "/providers/", g - 1)
  {
    if |group| < 9 {
      NotOccursAt(s, "/providers/", g - 1, |group| + 1);
    } else if |group| > 9 {
      assert s[g + 9] == group[9];
      NotOccursAt(s, "/providers/", g - 1, 10);
    } else {
      ProvidersWord();
      var k :| 0 <= k < 9 && group[k] != "providers"[k];
      assert s[g + k] == s[g..g + |group|][k] == group[k];
      assert "/providers/"[k + 1] == "/providers/"[1..10][k] == "providers"[k];
      NotOccursAt(s, "/providers/", g - 1, k + 1);
    }
  }

  lemma ProvidersWord()
    ensures "/providers/"[1..10] == "providers"
  {
  }

  /** The slice yields the group of any resource id whose subscription is a GUID and whose group is a path segment other than `providers`. */
  lemma ResourceGroupOfResourceId(sub: String, group: String, rest: String)
    requires IsGuidText(sub) && NoChar(group, '/') && group != "providers"
    ensures ResourceGroupName(ResourceId(sub, group, rest)) == group
  {
    var id := ResourceId(sub, group, rest);
    var pre := "/subscriptions/" + sub + "/resourceGroups/";
    assert |pre| == 31 + |sub|;
    assert id == pre + group + "/providers/" + rest;
    ResourceGroupsFound(sub, group, rest);
    ProvidersFound(sub, group, rest);
    assert ResourceGroupName(id) == Slice(id, 31 + |sub|, 31 + |sub| + |group|);
    SliceMiddle(pre, group, "/providers/", rest);
  }

  // ---------------------------------------------------------------------------
  // `getBlobInfo`.

  datatype BlobInfo = BlobInfo(
    accountName: String, endpointSuffix: String, containerName: String,
    blobName: String, sasToken: String, host: String)

  /** The `/`-separated items after `https://`. */
  function BlobItems(blobUrl: String): (items: seq<String>)
    ensures |items| >= 1
  {
    Split(Slice(blobUrl, IndexOf(blobUrl, "https://") + |"https://"|, |blobUrl|), "/")
  }

  /** The account name: from after `https://` to the first `.blob`. */
  function AccountName(blobUrl: String): String {
    Slice(blobUrl, IndexOf(blobUrl, "https://") + |"https://"|, Search(blobUrl, DotBlob))
  }

  /** The endpoint suffix: what follows the first `.blob.` of the host item. */
  function EndpointSuffix(host: String): String {
    Slice(host, Search(host, DotBlobDot) + |".blob."|, |host|)
  }

  /** What precedes the first `?` of the last item (all but its last character when there is none). */
  function BeforeQuestionMark(item: String): String {
    Slice(item, 0, IndexOf(item, "?"))
  }

  /** What follows the first `?` of the last item (all of it when there is none). */
  function AfterQuestionMark(item: String): String {
    Slice(item, IndexOf(item, "?") + 1, |item|)
  }

  /**
   * `getBlobInfo`; reading `items[4].slice` throws a TypeError when the URL has
   * fewer than five items.
   */
  function GetBlobInfo(blobUrl: String): (r: Result<BlobInfo, String>)
    ensures r.Err? <==> |BlobItems(blobUrl)| < 5
  {
    var items := BlobItems(blobUrl);
    if |items| < 5 then Err("TypeError: Cannot read property 'slice' of undefined")
    else
      var accountName := AccountName(blobUrl);
      var endpointSuffix := EndpointSuffix(items[0]);
      var blobName := items[2] + "/" + items[3] + "/" + BeforeQuestionMark(items[4]);
      Ok(BlobInfo(accountName, endpointSuffix, items[1], blobName, AfterQuestionMark(items[4]), accountName + ".blob." + endpointSuffix))
  }

  /** The fields of `getBlobInfo`, read off the URL and its items. */
  lemma BlobInfoFields(url: String, items: seq<String>)
    requires items == BlobItems(url) && |items| >= 5
    ensures GetBlobInfo(url).Ok?
    ensures var info := GetBlobInfo(url).value;
            info.accountName == AccountName(url) && info.endpointSuffix == EndpointSuffix(items[0])
            && info.host == info.accountName + ".blob." + info.endpointSuffix
            && info.containerName == items[1]
            && info.blobName == items[2] + "/" + items[3] + "/" + BeforeQuestionMark(items[4])
            && info.sasToken == AfterQuestionMark(items[4])
  {
  }

  /** After the first `?` comes the token; before it, the end of the name. */
  lemma SplitAtQuestionMark(item: String, head: String, blobName: String, sasToken: String)
    requires IndexOf(item, "?") >= 0
    requires blobName == head + "/" + BeforeQuestionMark(item)
    requires sasToken == AfterQuestionMark(item)
    ensures exists last :: NoChar(last, '?') && item == last + "?" + sasToken && EndsWith(blobName, "/" + last)
  {
    AroundFirstChar(item, '?');
    var last := BeforeQuestionMark(item);
    assert NoChar(last, '?');
    assert blobName == head + ("/" + last);
    EndsWithAppended(head, "/" + last);
  }

  /** The SAS token is what follows the first `?` of the fifth item, and the blob name ends with what precedes it. */
  lemma SasTokenAfterQuestionMark(blobUrl: String)
    requires GetBlobInfo(blobUrl).Ok?
    requires !NoChar(BlobItems(blobUrl)[4], '?')
    ensures var item := BlobItems(blobUrl)[4];
            var info := GetBlobInfo(blobUrl).value;
            exists last :: NoChar(last, '?') && item == last + "?" + info.sasToken
              && EndsWith(info.blobName, "/" + last)
  {
    var items := BlobItems(blobUrl);
    BlobInfoFields(blobUrl, items);
    var info := GetBlobInfo(blobUrl).value;
    IndexOfChar(items[4], '?');
    SplitAtQuestionMark(items[4], items[2] + "/" + items[3], info.blobName, info.sasToken);
  }

  /** `https://<account>.blob.<suffix>/<container>/<a>/<b>/<c>?<sas>`. */
  function BlobUrl(account: String, suffix: String, container: String, a: String, b: String, c: String, sas: String): String {
    "https://" + account + ".blob." + suffix + "/" + container + "/" + a + "/" + b + "/" + c + "?" + sas
  }

  /** `.blob` and `.blob.` match first right after the account, when the account does not contain `blob` and no `b` comes before it. */
  lemma FirstDotBlob(x: String, account: String, z: String, pat: seq<Atom>)
    requires NoChar(x, 'b')
    requires forall j :: !OccursAt(account, "blob", j)
    requires pat == DotBlob || pat == DotBlobDot
    ensures Search(x + account + ".blob." + z, pat) == |x| + |account|
  {
    var s := x + account + ".blob." + z;
    var p := |x| + |account|;
    assert s[p..p + 6] == ".blob.";
    assert MatchesAt(s, pat, p) by {
      forall k | 0 <= k < |pat| ensures AtomMatches(pat[k], s[p + k]) {
        assert s[p + k] == s[p..p + 6][k];
      }
    }
    forall q | 0 <= q < p ensures !MatchesAt(s, pat, q) {
      var r := q + 1;
      if r < |x| {
        assert s[r] == x[r];
        NotMatchesAt(s, pat, q, 1);
      } else if r + 4 <= p {
        assert account[r - |x|..r - |x| + 4] == s[r..r + 4];
        assert !OccursAt(account, "blob", r - |x|);
        var k :| 0 <= k < 4 && s[r..r + 4][k] != "blob"[k];
        assert s[r + k] == s[r..r + 4][k];
        NotMatchesAt(s, pat, q, k + 1);
      } else {
        assert s[p] == '.';
        NotMatchesAt(s, pat, q, p - q);
      }
    }
    SearchFirst(s, pat, p);
  }

  predicate BlobUrlParts(account: String, suffix: String, container: String, a: String, b: String, c: String, sas: String) {
    NoChar(account, '/') && NoChar(suffix, '/') && NoChar(container, '/')
    && NoChar(a, '/') && NoChar(b, '/') && NoChar(c, '/') && NoChar(sas, '/')
  }

  /** The items of a blob URL are its host, container, the three path segments and the query part. */
  lemma BlobItemsOfUrl(account: String, suffix: String, container: String, a: String, b: String, c: String, sas: String)
    requires BlobUrlParts(account, suffix, container, a, b, c, sas)
    ensures BlobItems(BlobUrl(account, suffix, container, a, b, c, sas))
         == [account + ".blob." + suffix, container, a, b, c + "?" + sas]
  {
    var host := account + ".blob." + suffix;
    var item := c + "?" + sas;
    var parts := [host, container, a, b, item];
    var rest := host + "/" + container + "/" + a + "/" + b + "/" + item;
    BlobUrlAsPath(account, suffix, container, a, b, c, sas);
    BlobItemsAfterScheme(rest);
    JoinFive(parts, "/");
    assert Join(parts, "/") == rest;
    LiteralsWithoutSlash();
    NoCharJoined(account, ".blob.", suffix, '/');
    NoCharJoined(c, "?", sas, '/');
    FivePartsFree(host, container, a, b, item, '/');
    SplitJoin(parts, '/');
  }

  /** Five parts without a character, stated part by part. */
  lemma FivePartsFree(p0: String, p1: String, p2: String, p3: String, p4: String, c: char)
    requires NoChar(p0, c) && NoChar(p1, c) && NoChar(p2, c) && NoChar(p3, c) && NoChar(p4, c)
    ensures var parts := [p0, p1, p2, p3, p4];
            forall k, j :: 0 <= k < |parts| && 0 <= j < |parts[k]| ==> parts[k][j] != c
  {
    var parts := [p0, p1, p2, p3, p4];
    forall k | 0 <= k < |parts| ensures NoChar(parts[k], c) {
      if k == 0 { assert parts[k] == p0; }
      else if k == 1 { assert parts[k] == p1; }
      else if k == 2 { assert parts[k] == p2; }
      else if k == 3 { assert parts[k] == p3; }
      else { assert parts[k] == p4; }
    }
  }

  lemma LiteralsWithoutSlash()
    ensures forall k :: 0 <= k < |".blob."| ==> ".blob."[k] != '/'
    ensures forall k :: 0 <= k < |"?"| ==> "?"[k] != '/'
  {
  }

  /** The items of `https://` followed by a path are the `/`-separated parts of the path. */
  lemma BlobItemsAfterScheme(rest: String)
    ensures BlobItems("https://" + rest) == Split(rest, "/")
  {
    PrefixIndexOf("https://", rest);
    SliceAfterPrefix("https://", rest);
  }

  lemma BlobUrlAsPath(account: String, suffix: String, container: String, a: String, b: String, c: String, sas: String)
    ensures BlobUrl(account, suffix, container, a, b, c, sas)
         == "https://" + ((account + ".blob." + suffix) + "/" + container + "/" + a + "/" + b + "/" + (c + "?" + sas))
  {
  }

  /** Joining five parts. */
  lemma JoinFive(parts: seq<String>, sep: String)
    requires |parts| == 5
    ensures Join(parts, sep) == parts[0] + sep + parts[1] + sep + parts[2] + sep + parts[3] + sep + parts[4]
  {
    var p1 := parts[1..];
    var p2 := p1[1..];
    var p3 := p2[1..];
    assert p3[1..] == [parts[4]];
    assert Join(p3, sep) == parts[3] + sep + parts[4];
    assert Join(p2, sep) == parts[2] + sep + (parts[3] + sep + parts[4]);
    assert Join(p1, sep) == parts[1] + sep + (parts[2] + sep + (parts[3] + sep + parts[4]));
  }

  /** Three texts without a character joined. */
  lemma NoCharJoined(x: String, y: String, z: String, c: char)
    requires NoChar(x, c) && NoChar(z, c) && (forall k :: 0 <= k < |y| ==> y[k] != c)
    ensures NoChar(x + y + z, c)
  {
    var s := x + y + z;
    forall k | 0 <= k < |s| ensures s[k] != c {
      if k < |x| { assert s[k] == x[k]; }
      else if k < |x| + |y| { assert s[k] == y[k - |x|]; }
      else { assert s[k] == z[k - |x| - |y|]; }
    }
  }

  lemma StartsWithFirst(s: String, sub: String)
    requires StartsWith(s, sub)
    ensures IndexOf(s, sub) == 0
  {
    assert OccursAt(s, sub, 0);
  }

  /** The account name of a blob URL whose account does not contain `blob`. */
  lemma AccountOfUrl(account: String, suffix: String, container: String, a: String, b: String, c: String, sas: String)
    requires forall j :: !OccursAt(account, "blob", j)
    ensures AccountName(BlobUrl(account, suffix, container, a, b, c, sas)) == account
  {
    var z := suffix + "/" + container + "/" + a + "/" + b + "/" + c + "?" + sas;
    BlobUrlAroundAccount(account, suffix, container, a, b, c, sas);
    PrefixIndexOf("https://", account + ".blob." + z);
    HttpsHasNoB();
    FirstDotBlob("https://", account, z, DotBlob);
    SliceMiddle("https://", account, ".blob.", z);
  }

  /** The endpoint suffix of a host whose account does not contain `blob`. */
  lemma EndpointSuffixOfHost(account: String, suffix: String)
    requires forall j :: !OccursAt(account, "blob", j)
    ensures EndpointSuffix(account + ".blob." + suffix) == suffix
  {
    assert [] + account == account;
    FirstDotBlob([], account, suffix, DotBlobDot);
    SliceAfterPrefix(account + ".blob.", suffix);
  }

  lemma BlobUrlAroundAccount(account: String, suffix: String, container: String, a: String, b: String, c: String, sas: String)
    ensures BlobUrl(account, suffix, container, a, b, c, sas)
         == "https://" + account + ".blob." + (suffix + "/" + container + "/" + a + "/" + b + "/" + c + "?" + sas)
         == "https://" + account + (".blob." + (suffix + "/" + container + "/" + a + "/" + b + "/" + c + "?" + sas))
  {
  }

  lemma HttpsHasNoB()
    ensures NoChar("https://", 'b')
  {
  }

  /** The account, endpoint suffix and host of a blob URL whose account does not contain `blob`. */
  lemma BlobInfoHost(account: String, suffix: String, container: String, a: String, b: String, c: String, sas: String)
    requires BlobUrlParts(account, suffix, container, a, b, c, sas)
    requires forall j :: !OccursAt(account, "blob", j)
    ensures var r := GetBlobInfo(BlobUrl(account, suffix, container, a, b, c, sas));
            r.Ok? && r.value.accountName == account && r.value.endpointSuffix == suffix
            && r.value.host == account + ".blob." + suffix
  {
    var url := BlobUrl(account, suffix, container, a, b, c, sas);
    BlobItemsOfUrl(account, suffix, container, a, b, c, sas);
    BlobInfoFields(url, BlobItems(url));
    AccountOfUrl(account, suffix, container, a, b, c, sas);
    EndpointSuffixOfHost(account, suffix);
  }

  /** The container, blob name and SAS token of a blob URL whose last segment has no `?`. */
  lemma BlobInfoPath(account: String, suffix: String, container: String, a: String, b: String, c: String, sas: String)
    requires BlobUrlParts(account, suffix, container, a, b, c, sas)
    requires NoChar(c, '?')
    ensures var r := GetBlobInfo(BlobUrl(account, suffix, container, a, b, c, sas));
            r.Ok? && r.value.containerName == container && r.value.blobName == a + "/" + b + "/" + c
            && r.value.sasToken == sas
  {
    var url := BlobUrl(account, suffix, container, a, b, c, sas);
    BlobItemsOfUrl(account, suffix, container, a, b, c, sas);
    var items := BlobItems(url);
    BlobInfoFields(url, items);
    QuestionMarkAfter(c, sas);
  }

  /** The first `?` of `c + "?" + sas`, when `c` has none, separates the two. */
  lemma QuestionMarkAfter(c: String, sas: String)
    requires NoChar(c, '?')
    ensures BeforeQuestionMark(c + "?" + sas) == c && AfterQuestionMark(c + "?" + sas) == sas
  {
    var item := c + "?" + sas;
    IndexOfCharFirst(item, '?', |c|);
    SliceMiddle([], c, "?", sas);
    assert [] + c == c;
    SliceAfterPrefix(c + "?", sas);
  }

  /** For a blob URL whose account does not contain `blob`, `getBlobInfo` returns its parts and the original host. */
  lemma BlobInfoOfUrl(account: String, suffix: String, container: String, a: String, b: String, c: String, sas: String)
    requires BlobUrlParts(account, suffix, container, a, b, c, sas)
    requires NoChar(c, '?')
    requires forall j :: !OccursAt(account, "blob", j)
    ensures GetBlobInfo(BlobUrl(account, suffix, container, a, b, c, sas))
         == Ok(BlobInfo(account, suffix, container, a + "/" + b + "/" + c, sas, account + ".blob." + suffix))
  {
    BlobInfoHost(account, suffix, container, a, b, c, sas);
    BlobInfoPath(account, suffix, container, a, b, c, sas);
  }
}
