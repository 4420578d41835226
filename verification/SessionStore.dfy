/**
 The session store: an append-only log of lines and a meta file for each session, with
 a cache of the metas. Text is bytes; the JSON codec is a parameter.
 */
module SessionStore {
  import opened Ids
  import opened Options

  type Bytes = string

  datatype Message = Message(role: string, content: string)

  datatype Meta = Meta(id: Id, owner: string, instruction: string, article: string, createdAt: int, lastActiveAt: int)

  datatype Codec = Codec(
    encode: Message -> Bytes,
    decode: Bytes -> Option<Message>,
    encodeMeta: Meta -> Bytes,
    decodeMeta: Bytes -> Option<Meta>)

  /** A line of the log as the encoder writes it: not empty, one line, and not ending in a carriage return. */
  predicate IsLine(b: Bytes) {
    b != [] && '\n' !in b && b[|b| - 1] != '\r'
  }

  ghost predicate Faithful(c: Codec) {
    && (forall m :: c.decode(c.encode(m)) == Some(m))
    && (forall m :: IsLine(c.encode(m)))
    && (forall m :: c.decodeMeta(c.encodeMeta(m)) == Some(m))
  }

  // ------------------------------------------------------------------------ the scanner

  /** The most a scanner holds: a line with its newline has to fit. */
  const LIMIT: nat := 0x10_0000

  function NewlineAt(b: Bytes): (i: nat)
    ensures i <= |b|
  {
    if b == [] || b[0] == '\n' then 0 else NewlineAt(b[1..]) + 1
  }

  function Chomped(line: Bytes): Bytes {
    if line != [] && line[|line| - 1] == '\r' then line[..|line| - 1] else line
  }

  datatype Scanned = Scanned(lines: seq<Bytes>, tooLong: bool)

  function Scan(b: Bytes): Scanned
    decreases |b|
  {
    if b == [] then Scanned([], false)
    else
      var i := NewlineAt(b);
      if i >= LIMIT then Scanned([], true)
      else
        var rest := Scan(Remaining(b));
        Scanned([Chomped(b[..i])] + rest.lines, rest.tooLong)
  }

  /** The message in a line; an empty or malformed line has none. */
  function InLine(c: Codec, line: Bytes): seq<Message> {
    if line == [] || c.decode(line).None? then [] else [c.decode(line).value]
  }

  function Decoded(c: Codec, lines: seq<Bytes>): seq<Message> {
    if lines == [] then [] else InLine(c, lines[0]) + Decoded(c, lines[1..])
  }

  function Remaining(b: Bytes): (rest: Bytes)
    requires b != []
    ensures |rest| < |b|
  {
    if NewlineAt(b) < |b| then b[NewlineAt(b) + 1..] else []
  }

  lemma DecodedEnd(c: Codec, b: Bytes, before: seq<Message>)
    requires b == [] || NewlineAt(b) >= LIMIT
    ensures before + Decoded(c, Scan(b).lines) == before && Scan(b).tooLong == (b != [])
  {
  }

  lemma DecodedStep(c: Codec, b: Bytes, before: seq<Message>)
    requires b != [] && NewlineAt(b) < LIMIT
    ensures before + Decoded(c, Scan(b).lines)
            == (before + InLine(c, Chomped(b[..NewlineAt(b)]))) + Decoded(c, Scan(Remaining(b)).lines)
    ensures Scan(b).tooLong == Scan(Remaining(b)).tooLong
  {
    var rest := Scan(Remaining(b));
    assert Scan(b) == Scanned([Chomped(b[..NewlineAt(b)])] + rest.lines, rest.tooLong);
    assert Scan(b).lines[1..] == rest.lines;
  }

  // ------------------------------------------------------------------- framing round trip

  function Framed(c: Codec, ms: seq<Message>): Bytes {
    if ms == [] then [] else c.encode(ms[0]) + ['\n'] + Framed(c, ms[1..])
  }

  lemma Regrouped(x: Bytes, y: Bytes, z: Bytes)
    ensures x + (y + z) == (x + y) + z
  {
  }

  lemma {:induction false} FramedJoins(c: Codec, a: seq<Message>, b: seq<Message>)
    ensures Framed(c, a + b) == Framed(c, a) + Framed(c, b)
  {
    if a == [] {
      assert a + b == b;
    } else {
      FramedJoins(c, a[1..], b);
      assert (a + b)[0] == a[0] && (a + b)[1..] == a[1..] + b;
      Regrouped(c.encode(a[0]) + ['\n'], Framed(c, a[1..]), Framed(c, b));
    }
  }

  lemma FramedOneMore(c: Codec, log: Bytes, ms: seq<Message>, i: nat)
    requires i < |ms|
    ensures log + Framed(c, ms[..i + 1]) == log + Framed(c, ms[..i]) + (c.encode(ms[i]) + ['\n'])
  {
    FramedJoins(c, ms[..i], [ms[i]]);
    assert Framed(c, [ms[i]]) == c.encode(ms[i]) + ['\n'];
    assert ms[..i + 1] == ms[..i] + [ms[i]];
  }

  lemma {:induction false} NewlineEndsLine(line: Bytes, rest: Bytes)
    requires '\n' !in line
    ensures NewlineAt(line + ['\n'] + rest) == |line|
  {
    var b := line + ['\n'] + rest;
    if line != [] {
      assert line[0] in line;
      assert b[1..] == line[1..] + ['\n'] + rest;
      NewlineEndsLine(line[1..], rest);
    }
  }

  predicate Fits(c: Codec, m: Message) {
    |c.encode(m)| < 1024 * 1024
  }

  /** How many messages come before the first whose line does not fit. */
  function Readable(c: Codec, ms: seq<Message>): (k: nat)
    ensures k <= |ms|
  {
    if ms == [] || !Fits(c, ms[0]) then 0 else Readable(c, ms[1..]) + 1
  }

  lemma ScanLine(line: Bytes, rest: Bytes)
    requires IsLine(line)
    ensures Scan(line + ['\n'] + rest) ==
            if |line| >= LIMIT then Scanned([], true) else Scanned([line] + Scan(rest).lines, Scan(rest).tooLong)
  {
    var b := line + ['\n'] + rest;
    NewlineEndsLine(line, rest);
    assert b[..|line|] == line && b[|line| + 1..] == rest;
  }

  /** A line is read without its ending, whether that is a newline or a carriage return and a newline. */
  lemma EndingsAreDropped(line: Bytes, cr: Bytes, rest: Bytes)
    requires '\n' !in line && (line == [] || line[|line| - 1] != '\r')
    requires (cr == [] || cr == ['\r']) && |line + cr| < 1024 * 1024
    ensures Scan((line + cr) + ['\n'] + rest) == Scanned([line] + Scan(rest).lines, Scan(rest).tooLong)
  {
    var full := line + cr;
    var b := full + ['\n'] + rest;
    NewlineEndsLine(full, rest);
    assert b[..|full|] == full && b[|full| + 1..] == rest;
    assert Chomped(full) == line by {
      assert full[..|line|] == line;
    }
  }

  lemma FramedStep(c: Codec, m: Message, rest: Bytes)
    requires Faithful(c)
    ensures var scanned := Scan(c.encode(m) + ['\n'] + rest);
      && Decoded(c, scanned.lines) == (if Fits(c, m) then [m] + Decoded(c, Scan(rest).lines) else [])
      && scanned.tooLong == (!Fits(c, m) || Scan(rest).tooLong)
  {
    assert IsLine(c.encode(m)) && c.decode(c.encode(m)) == Some(m);
    ScanLine(c.encode(m), rest);
    var lines := Scan(rest).lines;
    assert ([c.encode(m)] + lines)[1..] == lines;
  }

  lemma ReadableStep(c: Codec, ms: seq<Message>)
    requires ms != []
    ensures ms[..Readable(c, ms)] == if Fits(c, ms[0]) then [ms[0]] + ms[1..][..Readable(c, ms[1..])] else []
    ensures Readable(c, ms) < |ms| <==> !Fits(c, ms[0]) || Readable(c, ms[1..]) < |ms[1..]|
  {
    var k := Readable(c, ms[1..]);
    assert ms[..k + 1] == [ms[0]] + ms[1..][..k];
  }

  /**
   Reading back what was appended gives the messages before the first whose line does
   not fit in the scanner, with an error exactly when there is one.
   */
  lemma {:induction false} FramingRoundTrip(c: Codec, ms: seq<Message>)
    requires Faithful(c)
    ensures Decoded(c, Scan(Framed(c, ms)).lines) == ms[..Readable(c, ms)]
    ensures Scan(Framed(c, ms)).tooLong <==> Readable(c, ms) < |ms|
  {
    if ms != [] {
      FramingRoundTrip(c, ms[1..]);
      FramedStep(c, ms[0], Framed(c, ms[1..]));
      ReadableStep(c, ms);
    }
  }

  lemma {:induction false} ReadableIsFirst(c: Codec, ms: seq<Message>)
    ensures forall i :: 0 <= i < Readable(c, ms) ==> Fits(c, ms[i])
    ensures Readable(c, ms) < |ms| ==> !Fits(c, ms[Readable(c, ms)])
  {
    if ms != [] {
      ReadableIsFirst(c, ms[1..]);
      assert forall i :: 0 < i < |ms| ==> ms[i] == ms[1..][i - 1];
    }
  }

  // ------------------------------------------------------------------- files and cache

  /** The files on disk, and the cached metas. */
  datatype Files = Files(logs: map<Id, Bytes>, metaFiles: map<Id, Bytes>, metas: map<Id, Meta>)

  function Created(c: Codec, f: Files, m: Meta): Files {
    Files(f.logs[m.id := []], f.metaFiles[m.id := c.encodeMeta(m)], f.metas[m.id := m])
  }

  function Touched(c: Codec, f: Files, id: Id, now: int): Files {
    if id in f.metas then
      var m := f.metas[id].(lastActiveAt := now);
      f.(metas := f.metas[id := m], metaFiles := f.metaFiles[id := c.encodeMeta(m)])
    else f
  }

  function LogOf(f: Files, id: Id): Bytes {
    if id in f.logs then f.logs[id] else []
  }

  function Appended(c: Codec, f: Files, id: Id, ms: seq<Message>, now: int): Files {
    Touched(c, f.(logs := f.logs[id := LogOf(f, id) + Framed(c, ms)]), id, now)
  }

  function Deleted(f: Files, gone: set<Id>): Files {
    Files(f.logs - gone, f.metaFiles - gone, f.metas - gone)
  }

  predicate Expired(m: Meta, now: int, ttl: int) {
    now - m.lastActiveAt > ttl
  }

  /** The meta file as a direct reading finds it. */
  function OnDisk(c: Codec, f: Files, id: Id): Option<Meta> {
    if id in f.metaFiles then c.decodeMeta(f.metaFiles[id]) else None
  }

  function Fresh(m: Option<Meta>, now: int, ttl: int): Option<Meta> {
    if m.Some? && !Expired(m.value, now, ttl) then m else None
  }

  /** What a lookup knows of a session: the cached meta, or else the one on disk. */
  function Known(c: Codec, f: Files, id: Id): Option<Meta> {
    if id in f.metas then Some(f.metas[id]) else OnDisk(c, f, id)
  }

  function Filled(f: Files, id: Id, m: Meta): Files {
    f.(metas := f.metas[id := m])
  }

  function ExpiredIds(f: Files, now: int, ttl: int): set<Id> {
    set id | id in f.metas && Expired(f.metas[id], now, ttl)
  }

  /** The cached meta of `id`, if any, is the one on disk. */
  predicate CoherentAt(c: Codec, f: Files, id: Id) {
    id in f.metas ==> OnDisk(c, f, id) == Some(f.metas[id])
  }

  // -------------------------------------------------------------------------- the store

  class FileStore {
    const codec: Codec
    const ttl: int
    var logs: map<Id, Bytes>
    var metaFiles: map<Id, Bytes>
    var metas: map<Id, Meta>

    ghost function View(): Files
      reads this
    {
      Files(logs, metaFiles, metas)
    }

    constructor (codec: Codec, ttl: int)
      ensures View() == Files(map[], map[], map[]) && this.codec == codec && this.ttl == ttl
    {
      this.codec, this.ttl, logs, metaFiles, metas := codec, ttl, map[], map[], map[];
    }

    method CreateWithArticle(id: Id, instruction: string, article: string, owner: string, now: int)
      modifies this
      ensures View() == Created(codec, old(View()), Meta(id, owner, instruction, article, now, now))
    {
      var meta := Meta(id, owner, instruction, article, now, now);
      metaFiles := metaFiles[id := codec.encodeMeta(meta)];
      logs := logs[id := []];
      metas := metas[id := meta];
    }

    /** What is known of the session unless it has expired; `missed` says that it came from the disk. */
    method Look(id: Id, now: int) returns (meta: Option<Meta>, missed: bool)
      ensures meta == Fresh(Known(codec, View(), id), now, ttl)
      ensures meta.Some? <==> Known(codec, View(), id).Some? && now - Known(codec, View(), id).value.lastActiveAt <= ttl
      ensures missed <==> id !in metas && meta.Some?
    {
      meta, missed := None, false;
      if id in metas {
        return if now - metas[id].lastActiveAt > ttl then None else Some(metas[id]), false;
      }
      if id !in metaFiles {
        return;
      }
      meta := codec.decodeMeta(metaFiles[id]);
      if meta.None? || now - meta.value.lastActiveAt > ttl {
        return None, false;
      }
      missed := true;
    }

    /** The lookup and the filling of the cache, with nothing in between. */
    method GetMeta(id: Id, now: int) returns (meta: Option<Meta>)
      modifies this`metas
      ensures meta == Fresh(Known(codec, old(View()), id), now, ttl)
      ensures meta.Some? <==> Known(codec, old(View()), id).Some? && now - Known(codec, old(View()), id).value.lastActiveAt <= ttl
      ensures metas == if id !in old(metas) && meta.Some? then old(metas)[id := meta.value] else old(metas)
    {
      var missed;
      meta, missed := Look(id, now);
      if missed {
        metas := metas[id := meta.value];
      }
    }

    /** What the scanner hands out next, without its line ending. */
    method NextLine(text: Bytes) returns (line: Bytes, rest: Bytes)
      requires text != []
      ensures line == Chomped(text[..NewlineAt(text)]) && rest == Remaining(text)
    {
      var i := 0;
      while i < |text| && text[i] != '\n'
        invariant i <= |text| && NewlineAt(text) == i + NewlineAt(text[i..])
      {
        i := i + 1;
      }
      line := Chomped(text[..i]);
      rest := if i < |text| then text[i + 1..] else [];
    }

    /** Empty lines are skipped, and so are malformed ones. */
    method KeepMessage(line: Bytes, ms: seq<Message>) returns (kept: seq<Message>)
      ensures kept == ms + InLine(codec, line)
    {
      kept := ms;
      if line != [] {
        var m := codec.decode(line);
        if m.Some? {
          kept := kept + [m.value];
        }
      }
    }

    /** The messages read, and whether the scanner stopped at a line too long; nothing if there is no log. */
    method GetMessages(id: Id) returns (found: bool, ms: seq<Message>, tooLong: bool)
      ensures found <==> id in logs
      ensures found ==> ms == Decoded(codec, Scan(logs[id]).lines) && tooLong == Scan(logs[id]).tooLong
    {
      found, ms, tooLong := id in logs, [], false;
      if !found {
        return;
      }
      var text := logs[id];
      ghost var all := Scan(text);
      while text != [] && NewlineAt(text) < LIMIT
        invariant Decoded(codec, all.lines) == ms + Decoded(codec, Scan(text).lines)
        invariant all.tooLong == Scan(text).tooLong
        decreases |text|
      {
        DecodedStep(codec, text, ms);
        var line;
        line, text := NextLine(text);
        ms := KeepMessage(line, ms);
      }
      DecodedEnd(codec, text, ms);
      tooLong := text != [];
    }

    method Append(id: Id, ms: seq<Message>, now: int)
      modifies this
      ensures View() == Appended(codec, old(View()), id, ms, now)
    {
      if id !in logs {
        logs := logs[id := []];
      }
      assert LogOf(old(View()), id) + Framed(codec, ms[..0]) == LogOf(old(View()), id);
      for i := 0 to |ms|
        invariant logs == old(logs)[id := LogOf(old(View()), id) + Framed(codec, ms[..i])]
        invariant metaFiles == old(metaFiles) && metas == old(metas)
      {
        FramedOneMore(codec, LogOf(old(View()), id), ms, i);
        logs := logs[id := logs[id] + (codec.encode(ms[i]) + ['\n'])];
      }
      assert ms[..|ms|] == ms;
      TouchMeta(id, now);
    }

    method TouchMeta(id: Id, now: int)
      modifies this
      ensures View() == Touched(codec, old(View()), id, now)
    {
      if id in metas {
        var meta := metas[id].(lastActiveAt := now);
        metas := metas[id := meta];
        metaFiles := metaFiles[id := codec.encodeMeta(meta)];
      }
    }

    method Delete(id: Id)
      modifies this
      ensures View() == Deleted(old(View()), {id})
    {
      logs := logs - {id};
      metaFiles := metaFiles - {id};
      metas := metas - {id};
    }

    /** Sessions that expired but were never loaded into the cache stay on disk. */
    method CleanExpired(now: int)
      modifies this
      ensures View() == Deleted(old(View()), ExpiredIds(old(View()), now, ttl))
      ensures forall id :: id in metas <==> id in old(metas) && now - old(metas)[id].lastActiveAt <= ttl
      ensures forall id :: id !in old(metas) ==> (id in metaFiles <==> id in old(metaFiles))
    {
      var left := metas.Keys;
      ghost var gone: set<Id> := {};
      while left != {}
        invariant left <= old(metas).Keys && gone <= old(metas).Keys - left
        invariant View() == Deleted(old(View()), gone)
        invariant forall id :: id in old(metas) && id !in left ==> (id in gone <==> Expired(old(metas)[id], now, ttl))
        decreases left
      {
        var id :| id in left;
        left := left - {id};
        assert id in metas && metas[id] == old(metas)[id];
        if now - metas[id].lastActiveAt > ttl {
          Delete(id);
          DeletedTwice(old(View()), gone, id);
          gone := gone + {id};
        }
      }
      assert gone == ExpiredIds(old(View()), now, ttl);
    }
  }

  lemma DeletedTwice(f: Files, gone: set<Id>, id: Id)
    ensures Deleted(Deleted(f, gone), {id}) == Deleted(f, gone + {id})
  {
    assert f.logs - gone - {id} == f.logs - (gone + {id});
    assert f.metaFiles - gone - {id} == f.metaFiles - (gone + {id});
    assert f.metas - gone - {id} == f.metas - (gone + {id});
  }
}
