/** The translation client: translations are cached under a key made of the target
    language, the text kind and a 32-bit hash of the text, in memory and in the
    browser's storage, for seven days. The translation service is a parameter: the
    answer it would give when asked. */
module TranslateApi {
  import opened Common

  // ---------------------------------------------------------------------------
  // Hash and key
  // ---------------------------------------------------------------------------

  const TwoTo32 := 0x1_0000_0000

  /** The hash after the given code units: each step multiplies by 31, adds the unit and
      wraps to an unsigned 32-bit value. */
  function HashValue(units: seq<nat>): (h: nat)
    ensures h < TwoTo32
  {
    if units == [] then 0 else (HashValue(units[..|units| - 1]) * 31 + units[|units| - 1]) % TwoTo32
  }

  function HexDigit(d: nat): (c: char)
    requires d < 16
    ensures IsHexDigit(c)
  {
    if d < 10 then ('0' as int + d) as char else ('a' as int + d - 10) as char
  }

  function HexDigitValue(c: char): nat
    requires IsHexDigit(c)
  {
    if IsAsciiDigit(c) then c as int - '0' as int
    else if 'a' <= c <= 'f' then c as int - 'a' as int + 10
    else c as int - 'A' as int + 10
  }

  /** `n.toString(16)`: lower-case hexadecimal without leading zeros. */
  function ToHex(n: nat): (s: string)
    ensures |s| >= 1 && forall k :: 0 <= k < |s| ==> IsHexDigit(s[k])
    ensures |s| > 1 ==> s[0] != '0'
  {
    if n < 16 then [HexDigit(n)] else ToHex(n / 16) + [HexDigit(n % 16)]
  }

  function HexValue(s: string): nat
    requires forall k :: 0 <= k < |s| ==> IsHexDigit(s[k])
  {
    if s == [] then 0 else HexValue(s[..|s| - 1]) * 16 + HexDigitValue(s[|s| - 1])
  }

  /** The rendering of a number reads back as that number. */
  lemma {:induction false} HexRoundTrip(n: nat)
    ensures HexValue(ToHex(n)) == n
  {
    if n >= 16 {
      HexRoundTrip(n / 16);
      var s := ToHex(n);
      assert s[..|s| - 1] == ToHex(n / 16);
    }
  }

  /** The hash loop: `h = (h * 31 + code) >>> 0` over the code units, then hexadecimal. */
  method Hash(s: string) returns (r: string)
    ensures r == ToHex(HashValue(CodeUnits(s)))
  {
    var units := CodeUnits(s);
    var h := 0;
    for i := 0 to |units|
      invariant h == HashValue(units[..i])
    {
      assert units[..i + 1][..i] == units[..i];
      h := (h * 31 + units[i]) % TwoTo32;
    }
    assert units[..|units|] == units;
    r := ToHex(h);
  }

  function Kind(isHtml: bool): string { if isHtml then "html" else "text" }

  /** The cache key of a text. */
  function KeyOf(hash: string, targetLang: string, isHtml: bool): (k: string)
    ensures |k| == |targetLang| + |Kind(isHtml)| + |hash| + 2
    ensures k[..|targetLang|] == targetLang && k[|k| - |hash|..] == hash
    ensures k[|targetLang|] == ':' && k[|k| - |hash| - 1] == ':'
  {
    targetLang + ":" + Kind(isHtml) + ":" + hash
  }

  /** Keys never collide across languages or kinds: the hash carries no ':', so a key
      determines its language, its kind and its hash. */
  lemma KeysSeparate(h1: string, l1: string, f1: bool, h2: string, l2: string, f2: bool)
    requires forall k :: 0 <= k < |h1| ==> IsHexDigit(h1[k])
    requires forall k :: 0 <= k < |h2| ==> IsHexDigit(h2[k])
    requires KeyOf(h1, l1, f1) == KeyOf(h2, l2, f2)
    ensures l1 == l2 && f1 == f2 && h1 == h2
  {
    var key := KeyOf(h1, l1, f1);
    if |h1| < |h2| {
      HashColonFree(l1, Kind(f1), h1);
      HashColonFree(l2, Kind(f2), h2);
    } else if |h1| > |h2| {
      HashColonFree(l1, Kind(f1), h1);
      HashColonFree(l2, Kind(f2), h2);
    } else {
      assert |l1| == |l2|;
      assert l1 == key[..|l1|] == l2;
      assert h1 == key[|key| - |h1|..] == h2;
      KindFollowsLanguage(h1, l1, f1);
      KindFollowsLanguage(h2, l2, f2);
    }
  }

  /** The character after the language's ':' tells the kind of a key apart. */
  lemma KindFollowsLanguage(hash: string, targetLang: string, isHtml: bool)
    ensures KeyOf(hash, targetLang, isHtml)[|targetLang| + 1] == if isHtml then 'h' else 't'
  {
    var k := KeyOf(hash, targetLang, isHtml);
    assert k == (targetLang + ":") + (Kind(isHtml) + ":" + hash);
  }

  /** The two positions of a key the kind sits between are ':', and the hash has none. */
  lemma HashColonFree(l: string, kind: string, h: string)
    requires forall k :: 0 <= k < |h| ==> IsHexDigit(h[k])
    ensures forall k :: 0 <= k < |h| ==> h[k] != ':'
    ensures var key := l + ":" + kind + ":" + h;
            key[|key| - |h| - 1] == ':' && key[|l|] == ':'
  {
  }

  // ---------------------------------------------------------------------------
  // Cache
  // ---------------------------------------------------------------------------

  const StoragePrefix := "tw_translate_v1:"
  /** Seven days in milliseconds. */
  const Ttl := 7 * 24 * 60 * 60 * 1000

  datatype Entry = Entry(value: string, exp: int)

  /** The outcome of a lookup: the cached value, if any, and the memory and storage after it. */
  datatype Lookup = Lookup(value: Option<string>, mem: map<string, Entry>, storage: map<string, Option<Entry>>)

  /** A lookup at time `now`: a live memory entry answers; otherwise a live stored entry is
      copied into memory and answers, an expired one is removed, and text that does not
      parse (None) or an unavailable storage gives nothing. */
  function Find(mem: map<string, Entry>, storage: map<string, Option<Entry>>, available: bool,
                k: string, now: int): (r: Lookup)
    ensures r.value.Some? ==>
              ((k in mem && mem[k].exp > now && r.value.value == mem[k].value)
               || (StoragePrefix + k in storage && storage[StoragePrefix + k].Some?
                   && storage[StoragePrefix + k].value.exp > now
                   && r.value.value == storage[StoragePrefix + k].value.value))
  {
    if k in mem && mem[k].exp > now then Lookup(Some(mem[k].value), mem, storage)
    else if !available then Lookup(None, mem, storage)
    else
      var key := StoragePrefix + k;
      if key !in storage || storage[key].None? then Lookup(None, mem, storage)
      else if storage[key].value.exp > now then
        Lookup(Some(storage[key].value.value), mem[k := storage[key].value], storage)
      else Lookup(None, mem, storage - {key})
  }

  /** A lookup removes the stored entry of a key when it has expired and memory has no
      live entry, and touches no other stored item. */
  lemma FindDropsExpired(mem: map<string, Entry>, storage: map<string, Option<Entry>>, k: string, now: int)
    requires !(k in mem && mem[k].exp > now)
    requires StoragePrefix + k in storage && storage[StoragePrefix + k].Some?
    requires storage[StoragePrefix + k].value.exp <= now
    ensures var r := Find(mem, storage, true, k, now);
            r.value.None? && StoragePrefix + k !in r.storage
            && forall other :: other != StoragePrefix + k ==> (other in r.storage <==> other in storage)
  {
  }

  /** The state right after caching a value at `now`. */
  function Cached(mem: map<string, Entry>, storage: map<string, Option<Entry>>, available: bool,
                  k: string, v: string, now: int): Lookup
  {
    var e := Entry(v, now + Ttl);
    Lookup(None, mem[k := e], if available then storage[StoragePrefix + k := Some(e)] else storage)
  }

  /** What is cached at `now` is found for seven days, and after that it is gone from
      memory's answer and from storage. */
  lemma StoredThenFound(mem: map<string, Entry>, storage: map<string, Option<Entry>>, available: bool,
                        k: string, v: string, now: int, later: int)
    ensures var c := Cached(mem, storage, available, k, v, now);
            var r := Find(c.mem, c.storage, available, k, later);
            (later < now + Ttl ==> r.value == Some(v))
            && (later >= now + Ttl ==> r.value.None? && (available ==> StoragePrefix + k !in r.storage))
  {
  }

  class TranslationCache {
    var mem: map<string, Entry>
    /** The browser's storage items under the cache's prefix; None is text that does not parse. */
    var storage: map<string, Option<Entry>>
    const available: bool

    constructor (storage: map<string, Option<Entry>>, available: bool)
      ensures mem == map[] && this.storage == storage && this.available == available
    {
      mem := map[];
      this.storage := storage;
      this.available := available;
    }

    method GetCache(k: string, now: int) returns (value: Option<string>)
      modifies this`mem, this`storage
      ensures Find(old(mem), old(storage), available, k, now) == Lookup(value, mem, storage)
    {
      if k in mem && mem[k].exp > now {
        return Some(mem[k].value);
      }
      if !available {
        return None;
      }
      var key := StoragePrefix + k;
      if key !in storage || storage[key].None? {
        return None;
      }
      var obj := storage[key].value;
      if obj.exp > now {
        mem := mem[k := obj];
        return Some(obj.value);
      }
      storage := storage - {key};
      return None;
    }

    method SetCache(k: string, value: string, now: int)
      modifies this`mem, this`storage
      ensures mem == old(mem)[k := Entry(value, now + Ttl)]
      ensures storage == if available then old(storage)[StoragePrefix + k := Some(Entry(value, now + Ttl))] else old(storage)
    {
      var obj := Entry(value, now + Ttl);
      mem := mem[k := obj];
      if available {
        storage := storage[StoragePrefix + k := Some(obj)];
      }
    }

    /** One text: "" without asking the service for empty text; a cached translation when
        there is one; otherwise the service's answer (the text itself when the request
        fails or the answer has none), cached when the request succeeded. The key is always
        the text kind's. */
    method TranslateOne(text: Option<string>, targetLang: string, now: int, reply: Reply)
      returns (out: string, asked: bool)
      modifies this`mem, this`storage
      ensures var src := text.GetOr("");
              (src == "" ==> out == "" && !asked && mem == old(mem) && storage == old(storage))
              && (src != "" ==>
                    var k := KeyOf(ToHex(HashValue(CodeUnits(src))), targetLang, false);
                    var found := Find(old(mem), old(storage), available, k, now);
                    (found.value.Some? ==> out == found.value.value && !asked
                                           && mem == found.mem && storage == found.storage)
                    && (found.value.None? ==> asked && out == Answer(src, reply))
                    && (found.value.None? && reply.Failed? ==> mem == found.mem && storage == found.storage)
                    && (found.value.None? && reply.Answered? ==>
                          Lookup(None, mem, storage) == Cached(found.mem, found.storage, available, k, out, now)))
      ensures Translated(out, asked, mem, storage) == Step(old(mem), old(storage), available, text, targetLang, now, reply)
    {
      var src := text.GetOr("");
      if src == "" {
        return "", false;
      }
      var h := Hash(src);
      var k := KeyOf(h, targetLang, false);
      var cached := GetCache(k, now);
      if cached.Some? {
        return cached.value, false;
      }
      asked := true;
      if reply.Failed? {
        return src, asked;
      }
      out := reply.text.GetOr(src);
      SetCache(k, out, now);
    }

    /** A batch, one text after the other: one result per input, in input order, each the
        translation of its text against the cache the texts before it left behind. */
    method TranslateBatch(texts: seq<Option<string>>, targetLang: string, now: int, replies: seq<Reply>)
      returns (results: seq<string>, asked: seq<bool>)
      requires |replies| == |texts|
      modifies this`mem, this`storage
      ensures |results| == |texts| && |asked| == |texts|
      ensures forall i :: 0 <= i < |texts| && texts[i].GetOr("") == "" ==> results[i] == "" && !asked[i]
      ensures forall i :: 0 <= i < |texts| && asked[i] ==> results[i] == Answer(texts[i].GetOr(""), replies[i])
      ensures Batch(results, asked, mem, storage)
              == BatchUpTo(old(mem), old(storage), available, texts, targetLang, now, replies, |texts|)
    {
      results := [];
      asked := [];
      for i := 0 to |texts|
        invariant Batch(results, asked, mem, storage)
                  == BatchUpTo(old(mem), old(storage), available, texts, targetLang, now, replies, i)
      {
        var out, wasAsked := TranslateOne(texts[i], targetLang, now, replies[i]);
        BatchSnoc(old(mem), old(storage), available, texts, targetLang, now, replies, i);
        results := results + [out];
        asked := asked + [wasAsked];
      }
      BatchAnswers(old(mem), old(storage), available, texts, targetLang, now, replies, |texts|);
    }
  }

  /** The cache key of a text translated as plain text. */
  function TextKey(src: string, targetLang: string): string {
    KeyOf(ToHex(HashValue(CodeUnits(src))), targetLang, false)
  }

  /** The result of translating one text and the cache after it. */
  datatype Translated = Translated(out: string, asked: bool, mem: map<string, Entry>, storage: map<string, Option<Entry>>)

  /** One text against the cache (mem, storage): what TranslateOne answers and leaves behind. */
  function Step(mem: map<string, Entry>, storage: map<string, Option<Entry>>, available: bool,
                text: Option<string>, targetLang: string, now: int, reply: Reply): (r: Translated)
    ensures text.GetOr("") == "" ==> r.out == "" && !r.asked
    ensures r.asked ==> r.out == Answer(text.GetOr(""), reply)
    ensures r.asked && reply.Answered? ==>
              var k := TextKey(text.GetOr(""), targetLang);
              k in r.mem && r.mem[k] == Entry(r.out, now + Ttl)
    ensures !r.asked && text.GetOr("") != "" ==>
              Find(mem, storage, available, TextKey(text.GetOr(""), targetLang), now).value == Some(r.out)
  {
    var src := text.GetOr("");
    if src == "" then Translated("", false, mem, storage)
    else
      var k := TextKey(src, targetLang);
      var found := Find(mem, storage, available, k, now);
      if found.value.Some? then Translated(found.value.value, false, found.mem, found.storage)
      else if reply.Failed? then Translated(src, true, found.mem, found.storage)
      else
        var c := Cached(found.mem, found.storage, available, k, Answer(src, reply), now);
        Translated(Answer(src, reply), true, c.mem, c.storage)
  }

  /** A live memory entry written at `now` survives any other text translated at `now`, and
      answers a text with its key without asking the service. */
  lemma LiveEntryKept(mem: map<string, Entry>, storage: map<string, Option<Entry>>, available: bool,
                      text: Option<string>, targetLang: string, now: int, reply: Reply, k: string, v: string)
    requires k in mem && mem[k] == Entry(v, now + Ttl)
    ensures var r := Step(mem, storage, available, text, targetLang, now, reply);
            k in r.mem && r.mem[k] == Entry(v, now + Ttl)
            && (text.GetOr("") != "" && TextKey(text.GetOr(""), targetLang) == k ==> !r.asked && r.out == v)
  {
  }

  /** The results, the asked flags and the cache after the first n texts of a batch. */
  datatype Batch = Batch(results: seq<string>, asked: seq<bool>, mem: map<string, Entry>, storage: map<string, Option<Entry>>)

  /** The cache (memory and storage) the first n texts of a batch leave behind. */
  datatype CacheState = CacheState(mem: map<string, Entry>, storage: map<string, Option<Entry>>)

  function CacheAt(mem: map<string, Entry>, storage: map<string, Option<Entry>>, available: bool,
                   texts: seq<Option<string>>, targetLang: string, now: int, replies: seq<Reply>, n: nat): CacheState
    requires n <= |texts| == |replies|
  {
    if n == 0 then CacheState(mem, storage)
    else
      var c := CacheAt(mem, storage, available, texts, targetLang, now, replies, n - 1);
      var r := Step(c.mem, c.storage, available, texts[n - 1], targetLang, now, replies[n - 1]);
      CacheState(r.mem, r.storage)
  }

  /** Text i of a batch, translated against the cache the texts before it left behind. */
  function StepAt(mem: map<string, Entry>, storage: map<string, Option<Entry>>, available: bool,
                  texts: seq<Option<string>>, targetLang: string, now: int, replies: seq<Reply>, i: nat): Translated
    requires i < |texts| == |replies|
  {
    var c := CacheAt(mem, storage, available, texts, targetLang, now, replies, i);
    Step(c.mem, c.storage, available, texts[i], targetLang, now, replies[i])
  }

  function BatchUpTo(mem: map<string, Entry>, storage: map<string, Option<Entry>>, available: bool,
                     texts: seq<Option<string>>, targetLang: string, now: int, replies: seq<Reply>, n: nat): (b: Batch)
    requires n <= |texts| == |replies|
    ensures |b.results| == n && |b.asked| == n
    ensures forall i :: 0 <= i < n ==> b.results[i] == StepAt(mem, storage, available, texts, targetLang, now, replies, i).out
    ensures forall i :: 0 <= i < n ==> b.asked[i] == StepAt(mem, storage, available, texts, targetLang, now, replies, i).asked
  {
    var c := CacheAt(mem, storage, available, texts, targetLang, now, replies, n);
    Batch(seq(n, i requires 0 <= i < n => StepAt(mem, storage, available, texts, targetLang, now, replies, i).out),
          seq(n, i requires 0 <= i < n => StepAt(mem, storage, available, texts, targetLang, now, replies, i).asked),
          c.mem, c.storage)
  }

  /** One more text appends its result and question and moves the cache on by one Step. */
  lemma BatchSnoc(mem: map<string, Entry>, storage: map<string, Option<Entry>>, available: bool,
                  texts: seq<Option<string>>, targetLang: string, now: int, replies: seq<Reply>, n: nat)
    requires n < |texts| == |replies|
    ensures var b := BatchUpTo(mem, storage, available, texts, targetLang, now, replies, n);
            var r := Step(b.mem, b.storage, available, texts[n], targetLang, now, replies[n]);
            BatchUpTo(mem, storage, available, texts, targetLang, now, replies, n + 1)
            == Batch(b.results + [r.out], b.asked + [r.asked], r.mem, r.storage)
  {
    var b := BatchUpTo(mem, storage, available, texts, targetLang, now, replies, n);
    var r := StepAt(mem, storage, available, texts, targetLang, now, replies, n);
    var b' := BatchUpTo(mem, storage, available, texts, targetLang, now, replies, n + 1);
    SnocByIndex(b'.results, b.results, r.out);
    SnocByIndex(b'.asked, b.asked, r.asked);
  }

  /** Every text of a batch gets "" when it is empty and the service's answer when the
      service was asked. */
  lemma BatchAnswers(mem: map<string, Entry>, storage: map<string, Option<Entry>>, available: bool,
                      texts: seq<Option<string>>, targetLang: string, now: int, replies: seq<Reply>, n: nat)
    requires n <= |texts| == |replies|
    ensures var b := BatchUpTo(mem, storage, available, texts, targetLang, now, replies, n);
            (forall i :: 0 <= i < n && texts[i].GetOr("") == "" ==> b.results[i] == "" && !b.asked[i])
            && (forall i :: 0 <= i < n && b.asked[i] ==> b.results[i] == Answer(texts[i].GetOr(""), replies[i]))
  {
    var b := BatchUpTo(mem, storage, available, texts, targetLang, now, replies, n);
    forall i | 0 <= i < n
      ensures texts[i].GetOr("") == "" ==> b.results[i] == "" && !b.asked[i]
      ensures b.asked[i] ==> b.results[i] == Answer(texts[i].GetOr(""), replies[i])
    {
      var r := StepAt(mem, storage, available, texts, targetLang, now, replies, i);
      assert b.results[i] == r.out && b.asked[i] == r.asked;
    }
  }

  /** A text's result is fixed once it is translated: later texts do not change it. */
  lemma BatchResultsStable(mem: map<string, Entry>, storage: map<string, Option<Entry>>, available: bool,
                           texts: seq<Option<string>>, targetLang: string, now: int, replies: seq<Reply>,
                           i: nat, n: nat)
    requires i < n <= |texts| == |replies|
    ensures var b := BatchUpTo(mem, storage, available, texts, targetLang, now, replies, n);
            var r := BatchUpTo(mem, storage, available, texts, targetLang, now, replies, i + 1);
            b.results[i] == r.results[i] && b.asked[i] == r.asked[i]
  {
  }

  /** The first m results and questions of a batch are those of its first m texts. */
  lemma BatchPrefix(mem: map<string, Entry>, storage: map<string, Option<Entry>>, available: bool,
                    texts: seq<Option<string>>, targetLang: string, now: int, replies: seq<Reply>,
                    m: nat, n: nat)
    requires m <= n <= |texts| == |replies|
    ensures var b := BatchUpTo(mem, storage, available, texts, targetLang, now, replies, n);
            var p := BatchUpTo(mem, storage, available, texts, targetLang, now, replies, m);
            b.results[..m] == p.results && b.asked[..m] == p.asked
  {
    var b := BatchUpTo(mem, storage, available, texts, targetLang, now, replies, n);
    var p := BatchUpTo(mem, storage, available, texts, targetLang, now, replies, m);
    assert forall i :: 0 <= i < m ==> b.results[..m][i] == b.results[i];
    assert forall i :: 0 <= i < m ==> b.asked[..m][i] == b.asked[i];
  }

  /** A translation cached during a batch stays in memory for the rest of the batch. */
  lemma {:induction false} BatchKeepsEntry(mem: map<string, Entry>, storage: map<string, Option<Entry>>, available: bool,
                                           texts: seq<Option<string>>, targetLang: string, now: int, replies: seq<Reply>,
                                           i: nat, n: nat, k: string, v: string)
    requires i <= n <= |texts| == |replies|
    requires var b := BatchUpTo(mem, storage, available, texts, targetLang, now, replies, i);
             k in b.mem && b.mem[k] == Entry(v, now + Ttl)
    ensures var b := BatchUpTo(mem, storage, available, texts, targetLang, now, replies, n);
            k in b.mem && b.mem[k] == Entry(v, now + Ttl)
    decreases n
  {
    if n > i {
      BatchKeepsEntry(mem, storage, available, texts, targetLang, now, replies, i, n - 1, k, v);
      NextTextKeepsEntry(mem, storage, available, texts, targetLang, now, replies, n, k, v);
    }
  }

  lemma NextTextKeepsEntry(mem: map<string, Entry>, storage: map<string, Option<Entry>>, available: bool,
                           texts: seq<Option<string>>, targetLang: string, now: int, replies: seq<Reply>,
                           n: nat, k: string, v: string)
    requires 0 < n <= |texts| == |replies|
    requires var b := BatchUpTo(mem, storage, available, texts, targetLang, now, replies, n - 1);
             k in b.mem && b.mem[k] == Entry(v, now + Ttl)
    ensures var b := BatchUpTo(mem, storage, available, texts, targetLang, now, replies, n);
            k in b.mem && b.mem[k] == Entry(v, now + Ttl)
  {
    var b := BatchUpTo(mem, storage, available, texts, targetLang, now, replies, n - 1);
    LiveEntryKept(b.mem, b.storage, available, texts[n - 1], targetLang, now, replies[n - 1], k, v);
  }

  /** A text the service translated earlier in the batch is not asked for again: a later
      copy of it gets the same translation from the cache. */
  lemma RepeatedTextHitsCache(mem: map<string, Entry>, storage: map<string, Option<Entry>>, available: bool,
                              texts: seq<Option<string>>, targetLang: string, now: int, replies: seq<Reply>,
                              i: nat, j: nat)
    requires i < j < |texts| == |replies|
    requires texts[i].GetOr("") != "" && texts[j].GetOr("") == texts[i].GetOr("")
    requires replies[i].Answered?
    requires BatchUpTo(mem, storage, available, texts, targetLang, now, replies, |texts|).asked[i]
    ensures var b := BatchUpTo(mem, storage, available, texts, targetLang, now, replies, |texts|);
            !b.asked[j] && b.results[j] == b.results[i]
  {
    var k := TextKey(texts[i].GetOr(""), targetLang);
    BatchResultsStable(mem, storage, available, texts, targetLang, now, replies, i, |texts|);
    BatchResultsStable(mem, storage, available, texts, targetLang, now, replies, j, |texts|);
    var bi := BatchUpTo(mem, storage, available, texts, targetLang, now, replies, i + 1);
    var v := bi.results[i];
    BatchKeepsEntry(mem, storage, available, texts, targetLang, now, replies, i + 1, j, k, v);
    var bj := BatchUpTo(mem, storage, available, texts, targetLang, now, replies, j);
    LiveEntryKept(bj.mem, bj.storage, available, texts[j], targetLang, now, replies[j], k, v);
  }

  /** The service's answer when asked: Failed is a response that is not ok; otherwise the
      first translation's text, if the response has one. */
  datatype Reply = Failed | Answered(text: Option<string>)

  function Answer(src: string, reply: Reply): string {
    if reply.Failed? then src else reply.text.GetOr(src)
  }
}
