/** The attachment list of a news article: the entries of its attachment data
    (one object or an array of them) followed by the article's static files that
    look like documents, with repeated links dropped. */
module Attachments {
  import opened Common
  import opened JsonData

  /** `/^https?:\/\//i`. */
  predicate IsAbsoluteUrl(p: string) {
    StartsWith(Lower(p), "http://") || StartsWith(Lower(p), "https://")
  }

  /** The link for a stored path: absolute URLs as they are, other paths behind the
      site's media base, nothing for an empty path. */
  function BuildUrl(base: string, p: string): (r: string)
    ensures p == "" ==> r == ""
    ensures p != "" && IsAbsoluteUrl(p) ==> r == p
    ensures p != "" && !IsAbsoluteUrl(p) ==> r == base + p
    ensures p != "" ==> r != ""
  {
    if p == "" then "" else if IsAbsoluteUrl(p) then p else base + p
  }

  const AttachExts: seq<string> :=
    [".pdf", ".doc", ".docx", ".xls", ".xlsx", ".ppt", ".pptx", ".zip", ".rar", ".7z", ".csv", ".txt"]

  /** size and type are copied from the source object; None is a member it lacks. */
  datatype Attachment = Attachment(name: string, url: string, size: Option<Json>, kind: Option<Json>)

  /** A member of an object when it is a non-empty string. */
  function StrMember(fields: map<string, Json>, key: string): Option<string> {
    if key in fields && fields[key].JStr? && fields[key].s != "" then Some(fields[key].s) else None
  }

  /** The first of the listed members that is a non-empty string. */
  function FirstStr(fields: map<string, Json>, keys: seq<string>): (r: Option<string>)
    ensures r.Some? ==> r.value != ""
  {
    if keys == [] then None
    else if StrMember(fields, keys[0]).Some? then StrMember(fields, keys[0])
    else FirstStr(fields, keys[1..])
  }

  /** The text after the last "/". */
  function LastPiece(s: string): string {
    var parts := Split(s, '/');
    parts[|parts| - 1]
  }

  function Member(fields: map<string, Json>, key: string): Option<Json> {
    if key in fields then Some(fields[key]) else None
  }

  /** The attachment for one entry of the attachment data (at position idx): none when the
      entry has no url, href or path; its name is the first of original_name, name and
      safe_filename, else the link's last path piece, else a numbered placeholder. */
  function FromEntry(base: string, entry: Json, idx: nat): (r: seq<Attachment>)
    ensures |r| <= 1
    ensures r == [] <==> !entry.JObj? || FirstStr(entry.fields, ["url", "href", "path"]).None?
    ensures |r| == 1 ==> r[0].url != ""
  {
    if !entry.JObj? then []
    else
      var raw := FirstStr(entry.fields, ["url", "href", "path"]);
      if raw.None? then []
      else
        var named := FirstStr(entry.fields, ["original_name", "name", "safe_filename"]);
        var name :=
          if named.Some? then named.value
          else if LastPiece(raw.value) != "" then LastPiece(raw.value)
          else "附件_" + NatToString(idx + 1);
        [Attachment(name, BuildUrl(base, raw.value), Member(entry.fields, "file_size"), Member(entry.fields, "file_type"))]
  }

  /** The attachments of an array of entries, in order. */
  function FromEntries(base: string, entries: seq<Json>): (r: seq<Attachment>)
    ensures forall k :: 0 <= k < |r| ==> r[k].url != ""
  {
    if entries == [] then []
    else FromEntries(base, entries[..|entries| - 1]) + FromEntry(base, entries[|entries| - 1], |entries| - 1)
  }

  /** `/^img_\d+$/`. */
  predicate IsNumberedImageKey(k: string) {
    |k| > 4 && k[..4] == "img_" && forall i :: 4 <= i < |k| ==> IsAsciiDigit(k[i])
  }

  predicate IsImageKey(k: string) {
    k == "banner" || IsNumberedImageKey(k)
  }

  /** The first listed extension the (lower-cased) value ends with. */
  function MatchingExt(lower: string, exts: seq<string>): (r: Option<string>)
    ensures r.Some? ==> r.value in exts && EndsWith(lower, r.value)
    ensures r.None? ==> forall e :: e in exts ==> !EndsWith(lower, e)
  {
    if exts == [] then None
    else if EndsWith(lower, exts[0]) then Some(exts[0])
    else MatchingExt(lower, exts[1..])
  }

  /** The attachment for one static file: only a non-empty string, under a key that is not
      an image key, whose value ends in a document extension. */
  function FromStatic(base: string, key: string, value: Json): (r: seq<Attachment>)
    ensures |r| <= 1
    ensures |r| == 1 <==> value.JStr? && value.s != "" && !IsImageKey(key) && MatchingExt(Lower(value.s), AttachExts).Some?
    ensures |r| == 1 ==> r[0].url != "" && r[0].size.None?
  {
    if !value.JStr? || value.s == "" then []
    else
      var ext := MatchingExt(Lower(value.s), AttachExts);
      if IsImageKey(key) || ext.None? then []
      else
        var name := if LastPiece(value.s) != "" then LastPiece(value.s) else key;
        [Attachment(name, BuildUrl(base, value.s), None, Some(JStr(ext.value)))]
  }

  function FromStatics(base: string, entries: seq<(string, Json)>): (r: seq<Attachment>)
    ensures forall k :: 0 <= k < |r| ==> r[k].url != ""
  {
    if entries == [] then []
    else
      var last := entries[|entries| - 1];
      FromStatics(base, entries[..|entries| - 1]) + FromStatic(base, last.0, last.1)
  }

  /** Everything collected before duplicates are dropped. `statics` lists the static
      object's entries in enumeration order (None when there is no such object). */
  function Collected(base: string, data: Json, statics: Option<seq<(string, Json)>>): seq<Attachment> {
    var fromData :=
      if data.JArr? then FromEntries(base, data.items)
      else if data.JObj? then FromEntry(base, data, 0)
      else [];
    fromData + if statics.Some? then FromStatics(base, statics.value) else []
  }

  function Urls(rs: seq<Attachment>): set<string> {
    set k | 0 <= k < |rs| :: rs[k].url
  }

  lemma UrlsAppend(a: seq<Attachment>, r: Attachment)
    ensures Urls(a + [r]) == Urls(a) + {r.url}
  {
    var b := a + [r];
    forall u | u in Urls(b) ensures u in Urls(a) + {r.url} {
      var k :| 0 <= k < |b| && b[k].url == u;
      if k < |a| {
        assert b[k] == a[k];
      }
    }
    forall u | u in Urls(a) ensures u in Urls(b) {
      var k :| 0 <= k < |a| && a[k].url == u;
      assert b[k] == a[k];
    }
    assert b[|a|] == r;
  }

  /** The attachments with a link not seen before, in order. */
  function Dedup(rs: seq<Attachment>): (d: seq<Attachment>)
    ensures Urls(d) == Urls(rs) - {""}
    ensures forall i, j :: 0 <= i < j < |d| ==> d[i].url != d[j].url
    ensures forall k :: 0 <= k < |d| ==> d[k].url != ""
  {
    if rs == [] then []
    else
      var init := rs[..|rs| - 1];
      var prev := Dedup(init);
      var r := rs[|rs| - 1];
      assert rs == init + [r];
      UrlsAppend(init, r);
      if r.url != "" && r.url !in Urls(prev) then
        UrlsAppend(prev, r);
        prev + [r]
      else prev
  }

  /** rs[i] is the first attachment of rs with its link. */
  predicate FirstWithItsUrl(rs: seq<Attachment>, i: int) {
    0 <= i < |rs| && forall j :: 0 <= j < i ==> rs[j].url != rs[i].url
  }

  /** x occurs in rs, and no attachment before it has its link. */
  predicate ComesFirst(rs: seq<Attachment>, x: Attachment) {
    exists i :: 0 <= i < |rs| && FirstWithItsUrl(rs, i) && rs[i] == x
  }

  lemma ComesFirstExtends(rs: seq<Attachment>, r: Attachment, x: Attachment)
    requires ComesFirst(rs, x)
    ensures ComesFirst(rs + [r], x)
  {
    var i :| 0 <= i < |rs| && FirstWithItsUrl(rs, i) && rs[i] == x;
    var b := rs + [r];
    assert b[i] == rs[i];
    forall j | 0 <= j < i ensures b[j].url != b[i].url {
      assert b[j] == rs[j];
    }
    assert FirstWithItsUrl(b, i);
  }

  lemma ComesFirstAppended(rs: seq<Attachment>, r: Attachment)
    requires r.url !in Urls(rs)
    ensures ComesFirst(rs + [r], r)
  {
    var b := rs + [r];
    forall j | 0 <= j < |rs| ensures b[j].url != r.url {
      assert b[j] == rs[j];
    }
    assert FirstWithItsUrl(b, |rs|);
  }

  /** Every attachment kept is the first one in the input with its link. */
  lemma {:induction false} DedupKeepsFirst(rs: seq<Attachment>)
    ensures forall k :: 0 <= k < |Dedup(rs)| ==> ComesFirst(rs, Dedup(rs)[k])
  {
    if rs != [] {
      var init := rs[..|rs| - 1];
      var r := rs[|rs| - 1];
      assert rs == init + [r];
      DedupKeepsFirst(init);
      var prev := Dedup(init);
      forall k | 0 <= k < |Dedup(rs)|
        ensures ComesFirst(rs, Dedup(rs)[k])
      {
        if k < |prev| {
          assert Dedup(rs)[k] == prev[k];
          ComesFirstExtends(init, r, prev[k]);
        } else {
          assert Dedup(rs) == prev + [r] && r.url !in Urls(init);
          ComesFirstAppended(init, r);
        }
      }
    }
  }

  /** Dropping duplicates keeps the order of what remains. */
  lemma {:induction false} DedupKeepsOrder(rs: seq<Attachment>)
    ensures IsSubsequence(Dedup(rs), rs)
  {
    if rs != [] {
      var init := rs[..|rs| - 1];
      DedupKeepsOrder(init);
      var r := rs[|rs| - 1];
      assert rs == init + [r];
      if Dedup(rs) == Dedup(init) + [r] {
        SubsequenceAppendBoth(Dedup(init), init, r);
      } else {
        SubsequenceAppendRight(Dedup(init), init, r);
      }
    }
  }

  lemma {:induction false} SubsequenceAppendBoth<T>(a: seq<T>, b: seq<T>, x: T)
    requires IsSubsequence(a, b)
    ensures IsSubsequence(a + [x], b + [x])
    decreases |b|
  {
    if a == [] {
      SubsequenceOfSingletonEnd(b, x);
      assert a + [x] == [x];
    } else if a[0] == b[0] && IsSubsequence(a[1..], b[1..]) {
      SubsequenceAppendBoth(a[1..], b[1..], x);
      assert (a + [x])[1..] == a[1..] + [x];
      assert (b + [x])[1..] == b[1..] + [x];
    } else {
      SubsequenceAppendBoth(a, b[1..], x);
      assert (b + [x])[1..] == b[1..] + [x];
    }
  }

  lemma {:induction false} SubsequenceOfSingletonEnd<T>(b: seq<T>, x: T)
    ensures IsSubsequence([x], b + [x])
    decreases |b|
  {
    if b != [] {
      SubsequenceOfSingletonEnd(b[1..], x);
      assert (b + [x])[1..] == b[1..] + [x];
    } else {
      assert IsSubsequence([x][1..], []);
    }
  }

  lemma {:induction false} SubsequenceAppendRight<T>(a: seq<T>, b: seq<T>, x: T)
    requires IsSubsequence(a, b)
    ensures IsSubsequence(a, b + [x])
    decreases |b|
  {
    if a != [] {
      assert (b + [x])[1..] == b[1..] + [x];
      if a[0] == b[0] && IsSubsequence(a[1..], b[1..]) {
        SubsequenceAppendRight(a[1..], b[1..], x);
      } else {
        SubsequenceAppendRight(a, b[1..], x);
      }
    }
  }

  /** The attachments of the attachment data, pushed one entry at a time. */
  method CollectEntries(base: string, data: Json) returns (results: seq<Attachment>)
    ensures results == if data.JArr? then FromEntries(base, data.items)
                       else if data.JObj? then FromEntry(base, data, 0)
                       else []
  {
    results := [];
    if data.JArr? {
      for i := 0 to |data.items|
        invariant results == FromEntries(base, data.items[..i])
      {
        assert data.items[..i + 1][..i] == data.items[..i];
        results := results + FromEntry(base, data.items[i], i);
      }
      assert data.items[..|data.items|] == data.items;
    } else if data.JObj? {
      results := FromEntry(base, data, 0);
    }
  }

  /** The static files that look like documents, pushed one entry at a time. */
  method CollectStatics(base: string, entries: seq<(string, Json)>) returns (results: seq<Attachment>)
    ensures results == FromStatics(base, entries)
  {
    results := [];
    for i := 0 to |entries|
      invariant results == FromStatics(base, entries[..i])
    {
      assert entries[..i + 1][..i] == entries[..i];
      results := results + FromStatic(base, entries[i].0, entries[i].1);
    }
    assert entries[..|entries|] == entries;
  }

  /** One pass with the set of links seen so far. */
  method DropRepeatedLinks(results: seq<Attachment>) returns (uniq: seq<Attachment>)
    ensures uniq == Dedup(results)
  {
    uniq := [];
    var seen: set<string> := {};
    for i := 0 to |results|
      invariant uniq == Dedup(results[..i])
      invariant seen == Urls(uniq)
    {
      var r := results[i];
      assert results[..i + 1] == results[..i] + [r];
      assert results[..i + 1][..i] == results[..i];
      if r.url != "" && r.url !in seen {
        UrlsAppend(uniq, r);
        seen := seen + {r.url};
        uniq := uniq + [r];
      }
    }
    assert results[..|results|] == results;
  }

  /** The attachment list of an article: collect, then drop repeated links. */
  method NormalizeAttachments(base: string, data: Json, statics: Option<seq<(string, Json)>>)
    returns (uniq: seq<Attachment>)
    ensures uniq == Dedup(Collected(base, data, statics))
  {
    var results := CollectEntries(base, data);
    if statics.Some? {
      var more := CollectStatics(base, statics.value);
      results := results + more;
    } else {
      assert Collected(base, data, statics) == results;
    }
    uniq := DropRepeatedLinks(results);
  }
}
