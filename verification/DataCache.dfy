/** The telemetry cache: a ring that drops its oldest entry when full, its file, and the drain that empties it. */
module DataCache {
  import opened Rings

  const MAX_ENTRIES := 100
  const MAX_LEN := 512
  const MAGIC := 0x43414348

  datatype Status = Ok | Error | EmptyError | IoError | ParamError

  type Buffer = s: string | |s| == MAX_LEN witness seq(MAX_LEN, _ => ' ')

  // Of its buffer the first dataLen characters count.
  datatype Entry = Entry(data: Buffer, dataLen: int, timestamp: int) {
    predicate Good() {
      0 < dataLen < MAX_LEN
    }

    function Text(): string
      requires Good()
    {
      data[..dataLen]
    }
  }

  // The file: missing, or as many of the header's four numbers and of the entries as were written
  datatype File = Missing | Present(header: seq<int>, entries: seq<Entry>)

  // A complete file whose numbers describe a ring of good entries
  ghost predicate GoodFile(f: File) {
    && f.Present? && |f.header| == 4 && f.header[0] == MAGIC && |f.entries| == MAX_ENTRIES
    && 0 <= f.header[1] <= MAX_ENTRIES && 0 <= f.header[2] < MAX_ENTRIES
    && f.header[3] == Wrapped(f.header[2] + f.header[1], MAX_ENTRIES)
    && forall e :: e in Unrolled(f.entries, f.header[2], f.header[1]) ==> e.Good()
  }

  // The part of a file that can be read at all
  predicate Readable(f: File) {
    f.Present? ==> |f.header| <= 4 && |f.entries| <= MAX_ENTRIES
  }

  // All of it is there, and it starts with the magic number.
  predicate Whole(f: File) {
    f.Present? && |f.header| == 4 && f.header[0] == MAGIC && |f.entries| == MAX_ENTRIES
  }

  // What reading a file leaves of a cache with this image: each number and entry that the file has replaces the old
  // one, up to where the file breaks off; a file without the magic number replaces nothing.
  ghost function Loaded(was: File, f: File): File
    requires was.Present? && |was.header| == 4 && |was.entries| == MAX_ENTRIES && Readable(f)
  {
    if f.Missing? || |f.header| == 0 || f.header[0] != MAGIC then was
    else
      Present(f.header + was.header[|f.header|..],
              if |f.header| < 4 then was.entries else f.entries + was.entries[|f.entries|..])
  }

  class Cache {
    const entries: array<Entry>
    var head: int
    var tail: int
    var count: int
    var initialized: bool
    var file: File
    var pushes: nat
    var pops: nat

    ghost predicate Ring()
      reads this`head, this`tail, this`count
    {
      && entries.Length == MAX_ENTRIES && 0 <= count <= MAX_ENTRIES && 0 <= head < MAX_ENTRIES
      && tail == Wrapped(head + count, MAX_ENTRIES)
    }

    // The cached entries, the oldest first
    ghost function Contents(): seq<Entry>
      requires Ring()
      reads this`head, this`tail, this`count, entries
    {
      Unrolled(entries[..], head, count)
    }

    ghost predicate Valid()
      reads this`head, this`tail, this`count, entries
    {
      Ring() && forall e :: e in Contents() ==> e.Good()
    }

    // The static initialisation, with what is found on disk
    constructor (file: File, blank: Entry)
      ensures Valid() && Contents() == [] && !initialized && this.file == file && fresh(entries)
    {
      entries := new Entry[MAX_ENTRIES](_ => blank);
      head, tail, count, initialized, this.file, pushes, pops := 0, 0, 0, false, file, 0, 0;
    }

    // data_cache_push
    method Push(text: string, now: int) returns (r: Status)
      requires Valid()
      modifies this`head, this`tail, this`count, this`pushes, entries
      ensures Valid()
      ensures r == if |text| == 0 || |text| >= MAX_LEN then ParamError else if !initialized then Error else Ok
      ensures pushes == old(pushes) + if r == Ok then 1 else 0
      ensures r != Ok ==> Contents() == old(Contents())
      ensures r == Ok ==>
                && var kept := if |old(Contents())| == MAX_ENTRIES then old(Contents())[1..] else old(Contents());
                   && |Contents()| == |kept| + 1 && Contents()[..|kept|] == kept
                   && Contents()[|kept|].Text() == text && Contents()[|kept|].timestamp == now
    {
      hide Unrolled;
      if |text| == 0 || |text| >= MAX_LEN {
        return ParamError;
      }
      if !initialized {
        return Error;
      }
      if count >= MAX_ENTRIES {
        Advance();
      }
      var e := entries[tail];
      Append(Entry(text + ['\0'] + e.data[|text| + 1..], |text|, now));
      pushes := pushes + 1;
      r := Ok;
    }

    // Drops the oldest entry.
    method Advance()
      requires Valid() && count > 0
      modifies this`head, this`count
      ensures Valid() && count == old(count) - 1 && Contents() == old(Contents())[1..]
      ensures old(Contents())[0] == entries[old(head)]
    {
      hide Unrolled;
      Wraps(head + 1, MAX_ENTRIES);
      UnrolledPop(entries[..], head, count);
      head := (head + 1) % MAX_ENTRIES;
      count := count - 1;
      assert old(Contents()) == [entries[old(head)]] + Contents();
    }

    method Append(e: Entry)
      requires Valid() && count < MAX_ENTRIES && e.Good()
      modifies this`tail, this`count, entries
      ensures Valid() && Contents() == old(Contents()) + [e]
    {
      hide Unrolled;
      Wraps(tail + 1, MAX_ENTRIES);
      UnrolledPush(entries[..], head, count, e);
      entries[tail] := e;
      assert entries[..] == old(entries[..])[tail := e];
      tail := (tail + 1) % MAX_ENTRIES;
      count := count + 1;
    }

    // data_cache_pop; a caller with less room than the text and its end mark gets the text cut short
    method Pop(maxLen: int) returns (r: Status, text: string)
      requires Valid()
      modifies this`head, this`count, this`pops
      ensures Valid()
      ensures r == if maxLen <= 0 then ParamError else if !initialized then Error
                   else if |old(Contents())| == 0 then EmptyError else Ok
      ensures pops == old(pops) + if r == Ok then 1 else 0
      ensures r != Ok ==> text == "" && Contents() == old(Contents())
      ensures r == Ok ==>
                && Contents() == old(Contents())[1..] && old(Contents())[0].Good()
                && var whole := old(Contents())[0].Text();
                   text == if |whole| < maxLen then whole else whole[..maxLen - 1]
    {
      hide Unrolled;
      if maxLen <= 0 {
        return ParamError, "";
      }
      if !initialized {
        return Error, "";
      }
      assert |Contents()| == count by { LengthIsCount(); }
      if count <= 0 {
        return EmptyError, "";
      }
      var e := entries[head];
      ghost var was := Contents();
      Advance();
      assert e == was[0] && e in was;
      var len := if e.dataLen >= maxLen then maxLen - 1 else e.dataLen;
      text := e.data[..len];
      pops := pops + 1;
      r := Ok;
    }

    lemma LengthIsCount()
      requires Ring()
      ensures |Contents()| == count
    {
    }
  
    // What data_cache_save_to_file writes if it can write everything
    ghost function Image(): File
      reads this`head, this`tail, this`count, entries
    {
      Present([MAGIC, count, head, tail], entries[..])
    }

    // data_cache_save_to_file; `room` is how many numbers and entries can be written before an error
    method Save(opens: bool, room: nat) returns (r: Status)
      requires Valid()
      modifies this`file
      ensures r == if opens && room >= 4 + MAX_ENTRIES then Ok else IoError
      ensures r == Ok ==> file == Image() && Whole(file) && GoodFile(file)
      ensures !opens ==> file == old(file)
      ensures opens && r != Ok ==> file.Present? && !GoodFile(file)
    {
      if !opens {
        return IoError;
      }
      var header := [MAGIC, count, head, tail];
      if room < 4 {
        file := Present(header[..room], []);
        return IoError;
      }
      file := Present(header, []);
      for i := 0 to MAX_ENTRIES
        invariant file == Present(header, entries[..i]) && i <= room - 4
      {
        if i >= room - 4 {
          return IoError;
        }
        assert entries[..i + 1] == entries[..i] + [entries[i]];
        file := Present(header, entries[..i + 1]);
      }
      assert entries[..MAX_ENTRIES] == entries[..];
      r := Ok;
    }

    // data_cache_load_from_file reads into the cache as it goes, and does not look at the numbers.
    method Load() returns (r: Status)
      requires entries.Length == MAX_ENTRIES && Readable(file)
      modifies this`head, this`tail, this`count, this`file, entries
      ensures r == if old(file).Missing? || Whole(old(file)) then Ok else IoError
      ensures Image() == Loaded(old(Image()), old(file))
      ensures file == if Whole(old(file)) then Missing else old(file)
    {
      var f := file;
      if f.Missing? {
        return Ok;
      }
      if |f.header| < 1 || f.header[0] != MAGIC {
        return IoError;
      }
      ghost var was := Image();
      if |f.header| > 1 {
        count := f.header[1];
      }
      if |f.header| > 2 {
        head := f.header[2];
      }
      if |f.header| > 3 {
        tail := f.header[3];
      }
      assert [MAGIC, count, head, tail] == f.header + was.header[|f.header|..];
      if |f.header| < 4 {
        return IoError;
      }
      for i := 0 to MAX_ENTRIES
        invariant i <= |f.entries| && entries[..i] == f.entries[..i] && entries[i..] == was.entries[i..]
        invariant file == f && [MAGIC, count, head, tail] == f.header
      {
        if i >= |f.entries| {
          assert entries[..] == f.entries + was.entries[i..];
          return IoError;
        }
        entries[i] := f.entries[i];
        assert entries[..i + 1] == entries[..i] + [entries[i]];
        assert entries[i + 1..] == was.entries[i + 1..];
      }
      file := Missing;
      assert entries[..] == entries[..MAX_ENTRIES] == f.entries + was.entries[MAX_ENTRIES..];
      r := Ok;
    }

    lemma ImageIsWhole()
      requires entries.Length == MAX_ENTRIES
      ensures Whole(Image()) && Readable(Image())
    {
    }

    // A cache is proper exactly when its image is a good file.
    lemma ValidIsGood()
      requires entries.Length == MAX_ENTRIES
      ensures Valid() <==> GoodFile(Image())
      ensures Valid() ==> Contents() == Unrolled(Image().entries, Image().header[2], Image().header[1])
    {
    }

    // data_cache_init: for every file, whole or cut short, the cache is proper afterwards if and only if what the file
    // leaves of the old one is.
    method Init()
      requires entries.Length == MAX_ENTRIES && Readable(file)
      modifies this`head, this`tail, this`count, this`file, this`initialized, entries
      ensures initialized
      ensures old(initialized) ==> Image() == old(Image()) && file == old(file)
      ensures !old(initialized) ==> Image() == Loaded(old(Image()), old(file))
      ensures !old(initialized) ==> file == if Whole(old(file)) then Missing else old(file)
      ensures !old(initialized) ==> (Valid() <==> GoodFile(Loaded(old(Image()), old(file))))
    {
      if initialized {
        return;
      }
      var _ := Load();
      initialized := true;
      ValidIsGood();
    }
  }

  // A whole file decides alone; no file at all, or one without the magic number, changes nothing. Of any other each
  // number that is there replaces the old one, and so does each entry behind all four numbers.
  lemma LoadedCases(was: File, f: File)
    requires was.Present? && |was.header| == 4 && |was.entries| == MAX_ENTRIES && Readable(f)
    ensures Whole(f) ==> Loaded(was, f) == f
    ensures f.Missing? || f.header == [] || f.header[0] != MAGIC ==> Loaded(was, f) == was
    ensures f.Present? && f.header != [] && f.header[0] == MAGIC ==>
              && |Loaded(was, f).header| == 4 && |Loaded(was, f).entries| == MAX_ENTRIES
              && (forall i :: 0 <= i < 4 ==>
                    Loaded(was, f).header[i] == if i < |f.header| then f.header[i] else was.header[i])
              && (forall i :: 0 <= i < MAX_ENTRIES ==>
                    Loaded(was, f).entries[i] ==
                    if |f.header| == 4 && i < |f.entries| then f.entries[i] else was.entries[i])
  {
  }

  // After a file that breaks off among its numbers a cache that was empty at index 0, as it is at the start, is proper
  // exactly when it is still empty there.
  lemma CutAmongNumbers(was: File, f: File)
    requires GoodFile(was) && was.header == [MAGIC, 0, 0, 0] && (forall e :: e in was.entries ==> !e.Good())
    requires f.Present? && 1 < |f.header| < 4 && f.header[0] == MAGIC && f.entries == []
    ensures GoodFile(Loaded(was, f)) <==> f.header[1] == 0 && (|f.header| > 2 ==> f.header[2] == 0)
  {
    var g := Loaded(was, f);
    assert g.header[3] == 0 && g.entries == was.entries;
    if 0 < g.header[1] <= MAX_ENTRIES && 0 <= g.header[2] < MAX_ENTRIES {
      OldestInRing(g.entries, g.header[2], g.header[1]);
    }
  }

  lemma OldestInRing(s: seq<Entry>, head: nat, count: nat)
    requires head < |s| && 0 < count <= |s|
    ensures s[head] in s && s[head] in Unrolled(s, head, count)
  {
    assert Unrolled(s, head, count)[0] == s[head];
  }

  // A start from a file that holds its numbers only, with a count of 1000: the cache is then in use, and is not proper.
  method BrokenStart(blank: Entry) returns (cache: Cache)
    ensures fresh(cache) && cache.initialized && cache.count == 1000 && !cache.Valid()
  {
    cache := new Cache(Present([MAGIC, 1000, 0, 0], []), blank);
    cache.Init();
    assert cache.Image().header[1] == 1000;
  }

  // A cache saved and then loaded, by whatever cache, has the same entries in the same order.
  method SaveThenLoad(saved: Cache, loaded: Cache) returns (r: Status)
    requires saved.Valid() && loaded.entries.Length == MAX_ENTRIES && saved != loaded && saved.entries != loaded.entries
    modifies saved`file, loaded, loaded.entries
    ensures r == Ok && loaded.Valid() && loaded.Contents() == old(saved.Contents()) && loaded.file == Missing
  {
    hide GoodFile, Loaded, Unrolled;
    saved.ValidIsGood();
    loaded.ImageIsWhole();
    r := saved.Save(true, 4 + MAX_ENTRIES);
    loaded.file := saved.file;
    LoadedCases(loaded.Image(), saved.file);
    r := loaded.Load();
    loaded.ValidIsGood();
  }

  // The drain stops when the cache is empty, when the connection is lost, or at the first failure.
  datatype Ending = Emptied | Disconnected | Failed

  // What a drain that sends the first k of the entries has found, and what it leaves. Its i-th look found the
  // connection up and its i-th publish worked for each of the k; then there was nothing left, or its next look found
  // the connection lost, or its next publish failed. It leaves the rest, and behind the rest an entry whose publish
  // failed.
  ghost predicate Drained(before: seq<Entry>, after: seq<Entry>, sent: seq<string>, k: nat, how: Ending,
                          connected: nat -> bool, works: nat -> bool, now: int)
  {
    && k <= |before| && |sent| == k
    && (forall i :: 0 <= i < |before| ==> before[i].Good())
    && (forall i :: 0 <= i < k ==> sent[i] == before[i].Text() && connected(i) && works(i))
    && match how
       case Emptied => k == |before| && after == []
       case Disconnected => k < |before| && !connected(k) && after == before[k..]
       case Failed =>
         && k < |before| && connected(k) && !works(k)
         && |after| == |before| - k && after[..|after| - 1] == before[k + 1..]
         && after[|after| - 1].Good() && after[|after| - 1].Text() == before[k].Text()
         && after[|after| - 1].timestamp == now
  }

  // With a connection that lasts and publishes that work, everything is sent.
  lemma AllIsSent(before: seq<Entry>, after: seq<Entry>, sent: seq<string>, how: Ending,
                  connected: nat -> bool, works: nat -> bool, now: int)
    requires Drained(before, after, sent, |sent|, how, connected, works, now)
    requires forall i :: 0 <= i < |before| ==> connected(i) && works(i)
    ensures how == Emptied && |sent| == |before| && after == []
    ensures forall i :: 0 <= i < |before| ==> before[i].Good() && sent[i] == before[i].Text()
  {
  }

  // How many entries a drain sends is settled by what it finds: as many as there are looks and publishes in a row that
  // go well.
  lemma SentIsSettled(before: seq<Entry>, after1: seq<Entry>, sent1: seq<string>, how1: Ending,
                      after2: seq<Entry>, sent2: seq<string>, how2: Ending,
                      connected: nat -> bool, works: nat -> bool, now: int)
    requires Drained(before, after1, sent1, |sent1|, how1, connected, works, now)
    requires Drained(before, after2, sent2, |sent2|, how2, connected, works, now)
    ensures sent1 == sent2 && how1 == how2
  {
    assert |sent1| == |sent2|;
  }

  // The loop of publish_telemetry that sends what is cached; `connected` and `works` say what its i-th look at the
  // connection and its i-th publish find.
  method Drain(cache: Cache, connected: nat -> bool, works: nat -> bool, now: int)
      returns (sent: seq<string>, ghost how: Ending)
    requires cache.Valid() && (cache.initialized || cache.count == 0)
    modifies cache`head, cache`tail, cache`count, cache`pushes, cache`pops, cache.entries
    ensures cache.Valid()
    ensures Drained(old(cache.Contents()), cache.Contents(), sent, |sent|, how, connected, works, now)
    ensures (forall i :: 0 <= i < |old(cache.Contents())| ==> connected(i) && works(i)) ==>
              |sent| == |old(cache.Contents())| && cache.Contents() == []
  {
    hide Unrolled;
    sent, how := [], Emptied;
    ghost var before := cache.Contents();
    cache.LengthIsCount();
    while cache.count > 0 && connected(|sent|)
      invariant cache.Valid() && (cache.initialized || cache.count == 0) && cache.count == |cache.Contents()|
      invariant |sent| <= |before| && cache.Contents() == before[|sent|..]
      invariant forall i :: 0 <= i < |before| ==> before[i].Good()
      invariant forall i :: 0 <= i < |sent| ==> sent[i] == before[i].Text() && connected(i) && works(i)
      decreases cache.count
    {
      var r, text := cache.Pop(MAX_LEN);
      cache.LengthIsCount();
      if !works(|sent|) {
        r := cache.Push(text, now);
        how := Failed;
        return;
      }
      sent := sent + [text];
    }
    how := if cache.count == 0 then Emptied else Disconnected;
  }

  // On a cache that has entries but is not initialised, any number of turns of that loop leaves it where it was, so
  // that it ends only if the connection is lost.
  method StuckDrain(cache: Cache, turns: nat)
    requires cache.Valid() && !cache.initialized && cache.count > 0
    modifies cache`head, cache`count, cache`pops
    ensures cache.Valid() && cache.count > 0 && cache.Contents() == old(cache.Contents())
  {
    hide Unrolled;
    cache.LengthIsCount();
    for i := 0 to turns
      invariant cache.Valid() && cache.Contents() == old(cache.Contents())
    {
      var r, _ := cache.Pop(MAX_LEN);
    }
    cache.LengthIsCount();
  }

  // What becomes of the new report: it is sent, or cached behind the rest, where it drives out the oldest entry of a
  // full cache; one that no entry can hold is lost.
  ghost predicate Kept(mid: seq<Entry>, after: seq<Entry>, payload: string, delivered: bool, now: int) {
    if delivered || |payload| == 0 || |payload| >= MAX_LEN then after == mid
    else
      && |after| > 0 && after[..|after| - 1] == (if |mid| == MAX_ENTRIES then mid[1..] else mid)
      && after[|after| - 1].Good() && after[|after| - 1].Text() == payload && after[|after| - 1].timestamp == now
  }

  // The part of publish_telemetry that sends a report, after what is cached; `online` and `ok` are what it then finds.
  method PublishTelemetry(cache: Cache, payload: string, connected: nat -> bool, works: nat -> bool, online: bool,
                          ok: bool, now: int)
    returns (sent: seq<string>, delivered: bool, ghost how: Ending, ghost mid: seq<Entry>)
    requires cache.Valid() && cache.initialized
    modifies cache`head, cache`tail, cache`count, cache`pushes, cache`pops, cache.entries
    ensures cache.Valid() && Drained(old(cache.Contents()), mid, sent, |sent|, how, connected, works, now)
    ensures (forall i :: 0 <= i < |old(cache.Contents())| ==> connected(i) && works(i)) ==>
              |sent| == |old(cache.Contents())| && mid == []
    ensures delivered == (online && ok) && Kept(mid, cache.Contents(), payload, delivered, now)
  {
    hide Drained, Unrolled;
    sent, how := Drain(cache, connected, works, now);
    mid := cache.Contents();
    delivered := online && ok;
    if !delivered {
      var _ := cache.Push(payload, now);
    }
  }
}
