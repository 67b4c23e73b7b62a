/** The cache of parsed SQL templates and the capped notice history of the native async client
    (src/native_async.rs). */
module TemplateCaches {
  import opened Bytes
  import opened SqlTemplates

  const SQL_TEMPLATE_CACHE_ENTRIES: nat := 128
  const SQL_TEMPLATE_CACHE_BYTES: nat := 1024 * 1024
  const SQL_TEMPLATE_CACHE_ENTRY_MAX: nat := 64 * 1024

  const TWO_64: nat := 0x1_0000_0000_0000_0000

  /** `CachedSqlTemplate`. */
  datatype Cached = Cached(template: SqlTemplate, retained: nat, lastUsed: nat)

  /** `wrapping_add(1).max(1)`. */
  function Tick(clock: nat): (next: nat)
    requires clock < TWO_64
    ensures 1 <= next < TWO_64
  {
    if clock + 1 == TWO_64 then 1 else clock + 1
  }

  /** The bytes of all entries together. */
  ghost function Total(entries: map<string, Cached>): nat
    decreases |entries|
  {
    if entries == map[] then 0
    else
      var k :| k in entries;
      entries[k].retained + Total(entries - {k})
  }

  lemma {:induction false} TotalWithout(entries: map<string, Cached>, k: string)
    requires k in entries
    ensures Total(entries) == entries[k].retained + Total(entries - {k})
    decreases |entries|
  {
    var first :| first in entries && Total(entries) == entries[first].retained + Total(entries - {first});
    if first != k {
      TotalWithout(entries - {first}, k);
      TotalWithout(entries - {k}, first);
      assert (entries - {first}) - {k} == (entries - {k}) - {first};
    }
  }

  lemma TotalWith(entries: map<string, Cached>, k: string, c: Cached)
    requires k !in entries
    ensures Total(entries[k := c]) == Total(entries) + c.retained
    ensures |entries[k := c]| == |entries| + 1
  {
    TotalWithout(entries[k := c], k);
    assert entries[k := c] - {k} == entries;
    assert entries[k := c].Keys == entries.Keys + {k};
  }

  lemma TotalTouched(entries: map<string, Cached>, k: string, c: Cached)
    requires k in entries && c.retained == entries[k].retained
    ensures Total(entries[k := c]) == Total(entries)
    ensures |entries[k := c]| == |entries|
  {
    TotalWithout(entries, k);
    TotalWithout(entries[k := c], k);
    assert entries[k := c] - {k} == entries - {k};
    assert entries[k := c].Keys == entries.Keys;
  }

  lemma SizeWithout(entries: map<string, Cached>, k: string)
    requires k in entries
    ensures |entries - {k}| == |entries| - 1
  {
    assert (entries - {k}).Keys == entries.Keys - {k};
  }

  /** What `SqlTemplate::parse` makes of a text. */
  function ParseOf(sql: string): SqlTemplate {
    SqlTemplate(sql, Marked(Pieces("", sql)))
  }

  /** `uses[t]` is the text the cache was used for at the t-th tick of its clock, if it had or got it. The last use of
      `k` is tick number `t`. */
  predicate LastUse(uses: seq<Option<string>>, k: string, t: nat) {
    && 1 <= t <= |uses| && uses[t - 1] == Some(k)
    && forall u :: t <= u < |uses| ==> uses[u] != Some(k)
  }

  /** Every entry is the parse of its text. */
  ghost predicate Parsed(entries: map<string, Cached>, sizeOf: SqlTemplate -> nat) {
    forall k :: k in entries ==>
      && entries[k].template == ParseOf(k) && '\0' !in k
      && entries[k].retained == sizeOf(ParseOf(k)) <= SQL_TEMPLATE_CACHE_ENTRY_MAX
  }

  /** Until the clock wraps, an entry's stamp is the tick of its last use. */
  ghost predicate Tracked(entries: map<string, Cached>, clock: nat, uses: seq<Option<string>>) {
    && clock < TWO_64
    && (|uses| < TWO_64 ==> clock == |uses| && forall k :: k in entries ==> LastUse(uses, k, entries[k].lastUsed))
  }

  lemma UsedNow(entries: map<string, Cached>, clock: nat, uses: seq<Option<string>>, k: string, c: Cached)
    requires Tracked(entries, clock, uses) && c.lastUsed == Tick(clock)
    ensures Tracked(entries[k := c], Tick(clock), uses + [Some(k)])
    ensures LastUse(uses + [Some(k)], k, |uses| + 1)
  {
    var later, after := uses + [Some(k)], entries[k := c];
    if |later| < TWO_64 {
      forall j | j in after
        ensures LastUse(later, j, after[j].lastUsed)
      {
        if j != k {
          assert LastUse(uses, j, entries[j].lastUsed);
        }
      }
    }
  }

  lemma Missed(entries: map<string, Cached>, clock: nat, uses: seq<Option<string>>)
    requires Tracked(entries, clock, uses)
    ensures Tracked(entries, Tick(clock), uses + [None])
  {
    var later := uses + [None];
    if |later| < TWO_64 {
      forall j | j in entries
        ensures LastUse(later, j, entries[j].lastUsed)
      {
        assert LastUse(uses, j, entries[j].lastUsed);
      }
    }
  }

  /** The entry with the smallest stamp is the one used longest ago. */
  lemma SmallestIsOldest(entries: map<string, Cached>, clock: nat, uses: seq<Option<string>>, victim: string)
    requires Tracked(entries, clock, uses) && |uses| < TWO_64 && victim in entries
    requires forall k :: k in entries ==> entries[victim].lastUsed <= entries[k].lastUsed
    ensures LastUse(uses, victim, entries[victim].lastUsed)
    ensures forall k :: k in entries && k != victim ==>
              entries[victim].lastUsed < entries[k].lastUsed && LastUse(uses, k, entries[k].lastUsed)
  {
  }

  /** `victim` is an entry that was used before every other one was last used. */
  ghost predicate LeastRecent(entries: map<string, Cached>, uses: seq<Option<string>>, victim: string) {
    && victim in entries && LastUse(uses, victim, entries[victim].lastUsed)
    && forall k :: k in entries && k != victim ==>
         entries[victim].lastUsed < entries[k].lastUsed && LastUse(uses, k, entries[k].lastUsed)
  }

  class SqlTemplateCache {
    var entries: map<string, Cached>
    var retainedBytes: nat
    var clock: nat
    /** `SqlTemplate::retained_bytes`. */
    const sizeOf: SqlTemplate -> nat
    /** Every tick so far, and what it was for. */
    ghost var uses: seq<Option<string>>

    /** Every entry is the parse of its text, the bytes add up, both caps hold, and until the clock wraps it tells the
        order of last uses. */
    ghost predicate Valid()
      reads this
    {
      && Parsed(entries, sizeOf) && Tracked(entries, clock, uses)
      && retainedBytes == Total(entries) <= SQL_TEMPLATE_CACHE_BYTES
      && |entries| <= SQL_TEMPLATE_CACHE_ENTRIES
    }

    constructor (sizeOf: SqlTemplate -> nat)
      ensures Valid() && entries == map[] && this.sizeOf == sizeOf
    {
      this.sizeOf := sizeOf;
      entries, retainedBytes, clock, uses := map[], 0, 0, [];
    }

    /** `get`. */
    method Get(sql: string) returns (template: Option<SqlTemplate>)
      requires Valid()
      modifies this`clock, this`entries, this`uses
      ensures Valid() && entries.Keys == old(entries.Keys)
      ensures template == if sql in entries then Some(ParseOf(sql)) else None
      ensures uses == old(uses) + [if sql in entries then Some(sql) else None]
    {
      hide ParseOf, Total, Tracked;
      ghost var before := clock;
      TrackedClock(entries, clock, uses);
      clock := Tick(clock);
      if sql !in entries {
        Missed(entries, before, uses);
        uses := uses + [None];
        return None;
      }
      var entry := entries[sql];
      var stamped := entry.(lastUsed := clock);
      TotalTouched(entries, sql, stamped);
      UsedNow(entries, before, uses, sql, stamped);
      entries := entries[sql := stamped];
      uses := uses + [Some(sql)];
      template := Some(entry.template);
    }

    /** `min_by_key` over the entries. */
    method Oldest() returns (oldest: string)
      requires entries != map[]
      ensures oldest in entries && forall k :: k in entries ==> entries[oldest].lastUsed <= entries[k].lastUsed
    {
      var keys := entries.Keys;
      oldest :| oldest in keys;
      keys := keys - {oldest};
      while keys != {}
        invariant keys <= entries.Keys && oldest in entries
        invariant forall k :: k in entries && k !in keys ==> entries[oldest].lastUsed <= entries[k].lastUsed
        decreases |keys|
      {
        var k :| k in keys;
        keys := keys - {k};
        if entries[k].lastUsed < entries[oldest].lastUsed {
          oldest := k;
        }
      }
    }

    /** One turn of the eviction loop. Until the clock wraps the victim is the entry whose last use is longest ago. */
    method Evict() returns (ghost victim: string)
      requires Valid() && entries != map[]
      modifies this`entries, this`retainedBytes
      ensures Valid() && victim in old(entries) && entries == old(entries) - {victim} && |entries| < |old(entries)|
      ensures |uses| < TWO_64 ==> LeastRecent(old(entries), uses, victim)
    {
      hide ParseOf, Total;
      var oldest := Oldest();
      victim := oldest;
      if |uses| < TWO_64 {
        SmallestIsOldest(entries, clock, uses, oldest);
      }
      TotalWithout(entries, oldest);
      SizeWithout(entries, oldest);
      retainedBytes := retainedBytes - entries[oldest].retained;
      entries := entries - {oldest};
    }

    /** The eviction loop: entries go until the new one fits. */
    method MakeRoom(key: string, retained: nat)
      requires Valid() && key !in entries && retained <= SQL_TEMPLATE_CACHE_ENTRY_MAX
      modifies this`entries, this`retainedBytes
      ensures Valid() && Kept(entries, old(entries))
      ensures |entries| < SQL_TEMPLATE_CACHE_ENTRIES && retainedBytes + retained <= SQL_TEMPLATE_CACHE_BYTES
    {
      hide ParseOf, Parsed, Tracked, Total;
      while |entries| >= SQL_TEMPLATE_CACHE_ENTRIES || retainedBytes + retained > SQL_TEMPLATE_CACHE_BYTES
        invariant Valid() && Kept(entries, old(entries))
        decreases |entries|
      {
        if entries == map[] {
          NothingRetained();
          break;
        }
        var _ := Evict();
      }
      NothingRetained();
    }

    /** `insert`. */
    method Insert(template: SqlTemplate)
      requires Valid() && template == ParseOf(template.source) && '\0' !in template.source
      modifies this`entries, this`retainedBytes, this`clock, this`uses
      ensures Valid()
      ensures sizeOf(template) > SQL_TEMPLATE_CACHE_ENTRY_MAX || template.source in old(entries) ==>
                entries == old(entries)
      ensures sizeOf(template) <= SQL_TEMPLATE_CACHE_ENTRY_MAX && template.source !in old(entries) ==>
                && template.source in entries
                && Kept(entries - {template.source}, old(entries))
    {
      hide ParseOf, Total, Tracked;
      var retained := sizeOf(template);
      if retained > SQL_TEMPLATE_CACHE_ENTRY_MAX || retained > SQL_TEMPLATE_CACHE_BYTES {
        return;
      }
      var key := template.source;
      if key in entries {
        return;
      }
      MakeRoom(key, retained);
      ghost var before := clock;
      TrackedClock(entries, clock, uses);
      clock := Tick(clock);
      var entry := Cached(template, retained, clock);
      TotalWith(entries, key, entry);
      UsedNow(entries, before, uses, key, entry);
      assert entries[key := entry] - {key} == entries;
      retainedBytes := retainedBytes + retained;
      entries := entries[key := entry];
      uses := uses + [Some(key)];
    }

    /** `render_sql`: through the cache or not, the same text as parsing afresh. */
    method RenderSql(sql: string, literals: seq<Option<string>>) returns (r: Option<string>)
      requires Valid()
      modifies this`entries, this`retainedBytes, this`clock, this`uses
      ensures Valid() && r == Substituted(sql, literals)
    {
      hide Parsed, Tracked, Total;
      EntriesParse(entries, sizeOf);
      var cached := Get(sql);
      var template: SqlTemplate;
      if cached.Some? {
        template := cached.value;
      } else {
        var parsed := Parse(sql);
        if parsed.None? {
          return None;
        }
        template := parsed.value;
        Insert(template);
      }
      r := RenderParsed(sql, template, literals);
    }
  }

  /** Entries may have gone, but none has changed. */
  predicate Kept(entries: map<string, Cached>, before: map<string, Cached>) {
    entries.Keys <= before.Keys && forall k :: k in entries ==> entries[k] == before[k]
  }

  lemma NothingRetained()
    ensures Total(map[]) == 0
  {
  }

  lemma TrackedClock(entries: map<string, Cached>, clock: nat, uses: seq<Option<string>>)
    requires Tracked(entries, clock, uses)
    ensures clock < TWO_64
  {
  }

  lemma EntriesParse(entries: map<string, Cached>, sizeOf: SqlTemplate -> nat)
    requires Parsed(entries, sizeOf)
    ensures forall k :: k in entries ==> '\0' !in k
  {
  }

  /** Rendering the parse of a text. */
  method RenderParsed(sql: string, template: SqlTemplate, literals: seq<Option<string>>) returns (r: Option<string>)
    requires template == ParseOf(sql) && '\0' !in sql
    ensures r == Substituted(sql, literals)
  {
    RenderedIsSubstituted(sql, literals);
    r := Render(template, literals);
  }

  // -- Notices ------------------------------------------------------------------------------------------

  const NOTICE_LIMIT: nat := 1024 * 1024
  const NOTICE_COUNT: nat := 1000

  function Length(items: seq<string>): nat {
    if items == [] then 0 else Length(items[..|items| - 1]) + |items[|items| - 1]|
  }

  lemma {:induction false} LengthBehind(items: seq<string>)
    requires items != []
    ensures Length(items) == |items[0]| + Length(items[1..])
  {
    if |items| > 1 {
      var before := items[..|items| - 1];
      LengthBehind(before);
      assert items[1..][..|items| - 2] == before[1..];
    }
  }

  /** The messages that fit the history at all. */
  function Fitting(messages: seq<string>): seq<string> {
    if messages == [] then []
    else
      var last := messages[|messages| - 1];
      Fitting(messages[..|messages| - 1]) + if |last| <= NOTICE_LIMIT then [last] else []
  }

  /** `NoticeHistory`. */
  class NoticeHistory {
    var items: seq<string>
    var bytes: nat
    var dropped: nat
    ghost var pushed: seq<string>

    /** The history is the end of the fitting messages, within both caps, and counts every other message. */
    ghost predicate Valid()
      reads this
    {
      && bytes == Length(items) <= NOTICE_LIMIT && |items| <= NOTICE_COUNT
      && |items| + dropped == |pushed|
      && |items| <= |Fitting(pushed)| && items == Fitting(pushed)[|Fitting(pushed)| - |items|..]
    }

    constructor ()
      ensures Valid() && items == [] && dropped == 0
    {
      items, bytes, dropped, pushed := [], 0, 0, [];
    }

    /** The loop in `push`: old messages go until the new one fits. */
    method DropFor(message: string) returns (ghost k: nat)
      requires Valid() && |message| <= NOTICE_LIMIT
      modifies this`items, this`bytes, this`dropped
      ensures Valid() && |items| < NOTICE_COUNT && bytes + |message| <= NOTICE_LIMIT
      ensures k <= |old(items)| && items == old(items)[k..]
      ensures k > 0 ==> TooMuch(old(items)[k - 1..], message)
    {
      hide Length, Fitting;
      ghost var before := items;
      k := 0;
      while |items| >= NOTICE_COUNT || bytes + |message| > NOTICE_LIMIT
        invariant k <= |before| && items == before[k..] && dropped == old(dropped) + k
        invariant bytes == Length(items) <= NOTICE_LIMIT
        invariant k > 0 ==> TooMuch(before[k - 1..], message)
        decreases |items|
      {
        LengthOfNone();
        if items == [] {
          break;
        }
        LengthBehind(items);
        var previous := items[0];
        items := items[1..];
        bytes := bytes - |previous|;
        dropped := dropped + 1;
        k := k + 1;
      }
      LengthOfNone();
      EndOfEnd(Fitting(pushed), before, k);
    }

    /** `push`: the newest fitting message is always kept, and no more is dropped than has to be. */
    method Push(message: string) returns (ghost k: nat)
      requires Valid()
      modifies this
      ensures Valid() && pushed == old(pushed) + [message]
      ensures |message| > NOTICE_LIMIT ==> items == old(items)
      ensures |message| <= NOTICE_LIMIT ==>
                && k <= |old(items)| && items == old(items)[k..] + [message]
                && (k > 0 ==> TooMuch(old(items)[k - 1..], message))
    {
      hide Length, Fitting;
      k := 0;
      FittingThen(pushed, message);
      if |message| > NOTICE_LIMIT {
        dropped := dropped + 1;
        pushed := pushed + [message];
        return;
      }
      k := DropFor(message);
      LengthThen(items, message);
      bytes := bytes + |message|;
      items := items + [message];
      pushed := pushed + [message];
    }
  }

  lemma EndOfEnd<T>(all: seq<T>, end: seq<T>, k: nat)
    requires k <= |end| <= |all| && end == all[|all| - |end|..]
    ensures end[k..] == all[|all| - |end[k..]|..]
  {
  }

  /** With `message` behind them the items would pass one of the caps. */
  predicate TooMuch(items: seq<string>, message: string) {
    |items| >= NOTICE_COUNT || Length(items) + |message| > NOTICE_LIMIT
  }

  lemma LengthOfNone()
    ensures Length([]) == 0
  {
  }

  lemma LengthThen(items: seq<string>, message: string)
    ensures Length(items + [message]) == Length(items) + |message|
  {
    assert (items + [message])[..|items|] == items;
  }

  lemma FittingThen(messages: seq<string>, message: string)
    ensures Fitting(messages + [message]) == Fitting(messages) + if |message| <= NOTICE_LIMIT then [message] else []
  {
    assert (messages + [message])[..|messages|] == messages;
  }
}
