/**
 BlockingByteQueue.java as values: a queue of byte blocks with a write buffer and a read buffer
 that may be one and the same.  The state is what the fields hold; each operation is a function.
 */
module ByteQueues {

  const BLOCK_SIZE := 16384

  /** A Java byte. */
  type byte = x: int | -128 <= x < 128

  function ToByte(c: int): byte { (c + 128) % 256 - 128 }

  function Unsigned(b: byte): int { if b < 0 then b + 256 else b }

  lemma ByteRoundTrip(b: byte)
    ensures 0 <= Unsigned(b) < 256 && ToByte(Unsigned(b)) == b
  {
  }

  /** A byte written as an int is read as its last eight bits. */
  lemma LastEightBits(c: int)
    ensures Unsigned(ToByte(c)) == c % 256
  {
  }

  /** shared says that rbuf and wbuf are the same array. */
  datatype State = State(shared: bool, wbuf: seq<byte>, wlen: nat, rbuf: seq<byte>, rlen: nat, rpos: nat,
                         queue: seq<seq<byte>>, bytes: nat)

  function Zeros(n: nat): (z: seq<byte>)
    ensures |z| == n
  {
    seq(n, _ => 0)
  }

  const EMPTY := State(true, Zeros(BLOCK_SIZE), 0, Zeros(BLOCK_SIZE), 0, 0, [], 0)

  predicate Shaped(s: State) {
    |s.wbuf| == BLOCK_SIZE && s.wlen <= BLOCK_SIZE && (s.shared ==> s.rbuf == s.wbuf) && |s.rbuf| > 0 &&
    s.rlen <= |s.rbuf| && forall i :: 0 <= i < |s.queue| ==> |s.queue[i]| > 0
  }

  function Clear(s: State): State {
    State(true, s.wbuf, 0, s.wbuf, 0, 0, [], 0)
  }

  /** A full write buffer is put aside and a new one takes its place. */
  function Retired(s: State): State {
    s.(queue := if s.shared then s.queue else s.queue + [s.wbuf], shared := false, wbuf := Zeros(BLOCK_SIZE), wlen := 0)
  }

  /** A full write buffer is retired, unless everything has been read: then it is used again. */
  function MakeRoom(s: State): State {
    if s.wlen < BLOCK_SIZE then s
    else if s.bytes == 0 then s.(wlen := 0)
    else Retired(s)
  }

  /** Data put into the write buffer, which the reader sees at once if it is also reading there. */
  function Put(s: State, data: seq<byte>): State
    requires Shaped(s) && s.wlen + |data| <= BLOCK_SIZE
  {
    var wbuf := s.wbuf[..s.wlen] + data + s.wbuf[s.wlen + |data|..];
    var wlen := s.wlen + |data|;
    if s.shared then s.(wbuf := wbuf, wlen := wlen, rbuf := wbuf, rlen := wlen) else s.(wbuf := wbuf, wlen := wlen)
  }

  /** write(int) */
  function Write(s: State, b: byte): State
    requires Shaped(s)
  {
    var s1 := MakeRoom(s);
    Put(s1, [b]).(bytes := s.bytes + 1)
  }

  /** write(byte[]) */
  function WriteArray(s: State, data: seq<byte>): State
    requires Shaped(s)
  {
    var s0 := s.(bytes := s.bytes + |data|);
    if s.wlen == 0 && |data| > BLOCK_SIZE then s0.(queue := s.queue + [data])
    else if s.wlen + |data| < BLOCK_SIZE then Put(s0, data)
    else
      var len1 := BLOCK_SIZE - s.wlen;
      var s1 := Put(s0, data[..len1]);
      var s2 := Retired(s1);
      if |data| - len1 > BLOCK_SIZE then s2.(queue := s2.queue + [data[len1..]])
      else Put(s2, data[len1..])
  }

  /** The step to the next buffer at the start of read(), when the current one is used up. */
  function Reload(s: State): State {
    if s.rpos < s.rlen then s
    else if s.queue != [] then
      s.(shared := false, rbuf := s.queue[0], rlen := |s.queue[0]|, rpos := 0, queue := s.queue[1..])
    else s.(shared := true, rbuf := s.wbuf, rlen := s.wlen, rpos := 0)
  }

  datatype Result = Nothing | Got(b: byte)

  /** read(), when it does not have to wait any longer; with no bytes it gives up. */
  function Read(s: State): (State, Result)
    requires Shaped(s)
  {
    if s.bytes == 0 then (s, Nothing)
    else
      var s1 := Reload(s);
      (s1.(rpos := s1.rpos + 1, bytes := s.bytes - 1), Got(s1.rbuf[s1.rpos]))
  }

  // ---------------------------------------------------------------------------
  // The bytes a state holds
  // ---------------------------------------------------------------------------

  function Flat(q: seq<seq<byte>>): seq<byte> {
    if q == [] then [] else q[0] + Flat(q[1..])
  }

  lemma {:induction false} FlatAppend(q: seq<seq<byte>>, x: seq<byte>)
    ensures Flat(q + [x]) == Flat(q) + x
    decreases |q|
  {
    if q == [] {
      assert [x][1..] == [];
    } else {
      assert (q + [x])[1..] == q[1..] + [x];
      FlatAppend(q[1..], x);
    }
  }

  /** The reader's position is left over from a full buffer that has since been used again from
      its start; the next read will start over. */
  predicate Stale(s: State) { s.shared && s.queue == [] && s.rpos == BLOCK_SIZE && s.bytes > 0 }

  /** Blocks are queued although the reader is in the write buffer, where nothing has been written. */
  predicate QueuedAhead(s: State) { s.shared && s.queue != [] }

  function Contents(s: State): seq<byte>
    requires Shaped(s)
  {
    if QueuedAhead(s) then Flat(s.queue)
    else if Stale(s) then s.wbuf[..s.wlen]
    else if s.shared then if s.rpos <= s.wlen then s.wbuf[s.rpos..s.wlen] else []
    else (if s.rpos <= s.rlen then s.rbuf[s.rpos..s.rlen] else []) + Flat(s.queue) + s.wbuf[..s.wlen]
  }

  predicate Good(s: State) {
    Shaped(s) && s.bytes == |Contents(s)| &&
    if s.shared then
      s.rlen == s.wlen && (QueuedAhead(s) ==> s.wlen == 0 && s.rpos == 0) && (s.rpos <= s.wlen || Stale(s))
    else s.rpos <= s.rlen
  }

  lemma EmptyIsGood(s: State)
    requires Shaped(s)
    ensures Good(EMPTY) && Contents(EMPTY) == []
    ensures Good(Clear(s)) && Contents(Clear(s)) == []
  {
  }

  // ---------------------------------------------------------------------------
  // Reading takes from the front
  // ---------------------------------------------------------------------------

  lemma ReloadKeeps(s: State)
    requires Good(s) && s.bytes > 0
    ensures var s1 := Reload(s);
            Good(s1) && s1.rpos < s1.rlen && !Stale(s1) && !QueuedAhead(s1) &&
            Contents(s1) == Contents(s) && s1.bytes == s.bytes
  {
    hide Flat, Zeros;
    FlatParts(s.queue);
    if s.rpos >= s.rlen && s.queue != [] {
      var block := s.queue[0];
      assert block[0..|block|] == block;
      if QueuedAhead(s) { assert s.wbuf[..s.wlen] == []; }
    }
  }

  lemma FlatParts(queue: seq<seq<byte>>)
    ensures Flat(queue) == if queue == [] then [] else queue[0] + Flat(queue[1..])
  {
  }

  lemma SplitFirst(a: seq<byte>, i: nat, n: nat, b: seq<byte>, c: seq<byte>)
    requires i < n <= |a|
    ensures a[i..n] == [a[i]] + a[i + 1..n]
    ensures a[i..n] + b + c == [a[i]] + (a[i + 1..n] + b + c)
  {
  }

  lemma NextByteLeaves(s: State)
    requires Good(s) && s.rpos < s.rlen && !Stale(s) && !QueuedAhead(s)
    ensures var s' := s.(rpos := s.rpos + 1, bytes := |Contents(s)| - 1);
            Good(s') && Contents(s) == [s.rbuf[s.rpos]] + Contents(s')
  {
    hide Flat;
    var s' := s.(rpos := s.rpos + 1, bytes := |Contents(s)| - 1);
    SplitFirst(s.rbuf, s.rpos, s.rlen, Flat(s.queue), s.wbuf[..s.wlen]);
    if s.shared {
      assert Contents(s) == s.rbuf[s.rpos..s.rlen] && Contents(s') == s.rbuf[s.rpos + 1..s.rlen];
    } else {
      assert Contents(s) == s.rbuf[s.rpos..s.rlen] + Flat(s.queue) + s.wbuf[..s.wlen];
      assert Contents(s') == s.rbuf[s.rpos + 1..s.rlen] + Flat(s.queue) + s.wbuf[..s.wlen];
    }
  }

  lemma ReadTakesFirst(s: State)
    requires Good(s)
    ensures var (s', r) := Read(s);
            Good(s') &&
            if Contents(s) == [] then s' == s && r == Nothing
            else r == Got(Contents(s)[0]) && Contents(s') == Contents(s)[1..]
  {
    hide Flat, Contents, Reload;
    if s.bytes > 0 {
      ReloadKeeps(s);
      NextByteLeaves(Reload(s));
    }
  }

  // ---------------------------------------------------------------------------
  // Writing appends, except from two states
  // ---------------------------------------------------------------------------

  /** When write(int) keeps first-in-first-out order. */
  predicate SafeForByte(s: State) { !QueuedAhead(s) && !(Stale(s) && s.wlen == BLOCK_SIZE) }

  /** When write(byte[]) does, for n bytes. */
  predicate SafeForArray(s: State, n: nat) {
    (QueuedAhead(s) ==> n == 0 || n > BLOCK_SIZE) && !(Stale(s) && s.wlen + n >= BLOCK_SIZE)
  }

  lemma PutAppends(s: State, data: seq<byte>)
    requires Shaped(s) && s.wlen + |data| <= BLOCK_SIZE
    ensures var s' := Put(s, data);
            Shaped(s') && s'.wlen == s.wlen + |data| && s'.wbuf[..s'.wlen] == s.wbuf[..s.wlen] + data &&
            s'.shared == s.shared && s'.queue == s.queue && s'.rpos == s.rpos && s'.bytes == s.bytes
  {
    var s' := Put(s, data);
    assert s'.wbuf[..s'.wlen] == s.wbuf[..s.wlen] + data;
  }

  /** Data that fit are appended, in every state but one: when blocks are queued ahead. */
  lemma PutKeepsOrder(s: State, data: seq<byte>)
    requires Good(s) && s.wlen + |data| <= BLOCK_SIZE && (QueuedAhead(s) ==> data == [])
    requires s.shared && s.bytes == 0 && data != [] ==> s.wlen < BLOCK_SIZE
    ensures var s' := Put(s, data).(bytes := s.bytes + |data|);
            Good(s') && Contents(s') == Contents(s) + data && s'.shared == s.shared
  {
    hide Flat;
    PutAppends(s, data);
    var s' := Put(s, data).(bytes := s.bytes + |data|);
    if QueuedAhead(s) {
      assert s'.wbuf == s.wbuf && Contents(s) + data == Contents(s);
    } else if s.shared {
      if Stale(s) {
      } else {
        assert s'.wbuf[s.rpos..s'.wlen] == s'.wbuf[..s'.wlen][s.rpos..] == (s.wbuf[..s.wlen] + data)[s.rpos..];
        assert (s.wbuf[..s.wlen] + data)[s.rpos..] == s.wbuf[s.rpos..s.wlen] + data;
        if data == [] { assert s'.wbuf == s.wbuf; }
      }
    } else {
      assert Contents(s') == Contents(s) + data;
    }
  }

  /** Retiring a full write buffer moves nothing out of order, unless the reader's position in it
      is stale. */
  lemma RetireKeeps(s: State)
    requires Good(s) && s.wlen == BLOCK_SIZE && !Stale(s)
    ensures Good(Retired(s)) && Contents(Retired(s)) == Contents(s)
  {
    hide Good, Contents;
    if s.shared { RetireShared(s); } else { RetireOwn(s); }
  }

  lemma RetireShared(s: State)
    requires Good(s) && s.wlen == BLOCK_SIZE && !Stale(s) && s.shared
    ensures Good(Retired(s)) && Contents(Retired(s)) == Contents(s)
  {
    assert s.queue == [] && Retired(s).rbuf == s.wbuf;
    assert Contents(Retired(s)) == s.wbuf[s.rpos..BLOCK_SIZE] + [] + [];
  }

  lemma RetireOwn(s: State)
    requires Good(s) && s.wlen == BLOCK_SIZE && !s.shared
    ensures Good(Retired(s)) && Contents(Retired(s)) == Contents(s)
  {
    hide Flat, Zeros;
    FlatAppend(s.queue, s.wbuf);
    assert s.wbuf[..BLOCK_SIZE] == s.wbuf;
    Joined(s.rbuf[s.rpos..s.rlen], Flat(s.queue), s.wbuf);
    assert Zeros(BLOCK_SIZE)[..0] == [];
  }

  lemma Joined(a: seq<byte>, b: seq<byte>, c: seq<byte>)
    ensures a + b + c == a + (b + c) + []
  {
  }

  lemma WriteKeepsOrder(s: State, b: byte)
    requires Good(s) && SafeForByte(s)
    ensures Good(Write(s, b)) && Contents(Write(s, b)) == Contents(s) + [b]
  {
    hide Flat, Contents, Put;
    if s.wlen < BLOCK_SIZE {
      PutKeepsOrder(s, [b]);
    } else if s.bytes == 0 {
      ReuseKeeps(s, b);
    } else {
      RetireKeeps(s);
      PutKeepsOrder(MakeRoom(s), [b]);
    }
  }

  /** An exhausted full buffer is used again from its start, which leaves the reader stale. */
  lemma ReuseKeeps(s: State, b: byte)
    requires Good(s) && s.wlen == BLOCK_SIZE && s.bytes == 0
    ensures Good(Write(s, b)) && Contents(Write(s, b)) == Contents(s) + [b] && Stale(Write(s, b)) &&
            Write(s, b).wlen == 1
  {
    hide Flat;
    var s1 := s.(wlen := 0);
    assert s.shared && s.rpos == BLOCK_SIZE;
    PutAppends(s1, [b]);
    var s' := Write(s, b);
    assert Stale(s') && s'.wlen == 1;
  }

  lemma WriteArrayKeepsOrder(s: State, data: seq<byte>)
    requires Good(s) && SafeForArray(s, |data|)
    ensures Good(WriteArray(s, data)) && Contents(WriteArray(s, data)) == Contents(s) + data
  {
    hide Put, Contents, Good, Retired;
    GoodIsShaped(s);
    if s.wlen == 0 && |data| > BLOCK_SIZE {
      EnqueueKeepsOrder(s, data);
    } else if s.wlen + |data| < BLOCK_SIZE {
      PutBytes(s, data, s.bytes + |data|);
      PutKeepsOrder(s, data);
    } else {
      FillKeepsOrder(s, data);
    }
  }

  lemma GoodIsShaped(s: State)
    requires Good(s)
    ensures Shaped(s)
  {
    hide Contents;
  }

  lemma EnqueueKeepsOrder(s: State, data: seq<byte>)
    requires Good(s) && s.wlen == 0 && data != []
    ensures var s' := s.(queue := s.queue + [data], bytes := s.bytes + |data|);
            Good(s') && Contents(s') == Contents(s) + data
  {
    var s' := s.(queue := s.queue + [data], bytes := s.bytes + |data|);
    FlatAppend(s.queue, data);
    if s.shared {
      assert !Stale(s);
      assert s.queue == [] ==> Flat(s.queue) == [] && Contents(s) == [];
      assert Contents(s') == Flat(s.queue) + data;
    } else {
      assert Contents(s') == s.rbuf[s.rpos..s.rlen] + (Flat(s.queue) + data) + [];
      assert Contents(s) == s.rbuf[s.rpos..s.rlen] + Flat(s.queue) + [];
    }
  }

  /** Filling the write buffer and retiring it. */
  lemma FilledKeeps(s: State, first: seq<byte>)
    requires Good(s) && !QueuedAhead(s) && !Stale(s) && s.wlen + |first| == BLOCK_SIZE
    ensures var s2 := Retired(Put(s, first).(bytes := s.bytes + |first|));
            Good(s2) && Contents(s2) == Contents(s) + first &&
            s2.wlen == 0 && !s2.shared && s2.bytes == s.bytes + |first|
  {
    hide Put, Contents, Flat;
    PutKeepsOrder(s, first);
    PutAppends(s, first);
    FilledIsNotStale(s, first);
    RetireKeeps(Put(s, first).(bytes := s.bytes + |first|));
  }

  /** An array that reaches past the end of the write buffer fills it first. */
  lemma FillShape(s: State, first: seq<byte>, rest: seq<byte>)
    requires Shaped(s) && s.wlen + |first| == BLOCK_SIZE && !(s.wlen == 0 && |first + rest| > BLOCK_SIZE)
    requires Shaped(Retired(Put(s, first).(bytes := s.bytes + |first|)))
    ensures var s2 := Retired(Put(s, first).(bytes := s.bytes + |first|));
            s2.wlen == 0 &&
            WriteArray(s, first + rest) ==
            if |rest| > BLOCK_SIZE then s2.(queue := s2.queue + [rest], bytes := s2.bytes + |rest|)
            else Put(s2, rest).(bytes := s2.bytes + |rest|)
  {
    hide Put, Zeros;
    var data := first + rest;
    assert data[..|first|] == first && data[|first|..] == rest;
    PutBytes(s, first, s.bytes + |data|);
    if |rest| <= BLOCK_SIZE { PutBytes(Retired(Put(s, first).(bytes := s.bytes + |first|)), rest, s.bytes + |data|); }
  }

  lemma FillKeepsOrder(s: State, data: seq<byte>)
    requires Good(s) && SafeForArray(s, |data|) && s.wlen + |data| >= BLOCK_SIZE
    requires !(s.wlen == 0 && |data| > BLOCK_SIZE)
    ensures Good(WriteArray(s, data)) && Contents(WriteArray(s, data)) == Contents(s) + data
  {
    hide Put, Contents, Good, Retired, WriteArray;
    GoodIsShaped(s);
    NotAhead(s, data);
    var first, rest := data[..BLOCK_SIZE - s.wlen], data[BLOCK_SIZE - s.wlen..];
    assert data == first + rest;
    FilledKeeps(s, first);
    var s2 := Retired(Put(s, first).(bytes := s.bytes + |first|));
    GoodIsShaped(s2);
    FillShape(s, first, rest);
    assert Contents(s) + data == Contents(s) + first + rest;
    if |rest| > BLOCK_SIZE { EnqueueKeepsOrder(s2, rest); } else { PutKeepsOrder(s2, rest); }
  }

  lemma PutBytes(s: State, data: seq<byte>, n: nat)
    requires Shaped(s) && s.wlen + |data| <= BLOCK_SIZE
    ensures Put(s.(bytes := n), data) == Put(s, data).(bytes := n)
  {
  }

  lemma NotAhead(s: State, data: seq<byte>)
    requires Good(s) && SafeForArray(s, |data|) && s.wlen + |data| >= BLOCK_SIZE
    requires !(s.wlen == 0 && |data| > BLOCK_SIZE)
    ensures !QueuedAhead(s) && !Stale(s)
  {
  }

  lemma FilledIsNotStale(s: State, first: seq<byte>)
    requires Good(s) && !Stale(s) && s.wlen + |first| == BLOCK_SIZE
    ensures !Stale(Put(s, first).(bytes := s.bytes + |first|))
  {
  }

  // ---------------------------------------------------------------------------
  // Reading several bytes
  // ---------------------------------------------------------------------------

  lemma ReadStaysShaped(s: State)
    requires Shaped(s)
    ensures Shaped(Read(s).0) && Read(s).0.bytes == (if s.bytes == 0 then 0 else s.bytes - 1)
    ensures Read(s).1.Got? <==> s.bytes > 0
  {
  }

  /** read(byte[]): n bytes, or as many as are counted. */
  function ReadMany(s: State, n: nat): (State, seq<byte>)
    requires Shaped(s)
    decreases n
  {
    if n == 0 || s.bytes == 0 then (s, [])
    else
      ReadStaysShaped(s);
      var (s1, r) := Read(s);
      var (s2, more) := ReadMany(s1, n - 1);
      (s2, [r.b] + more)
  }

  /** readDelimited(): up to and including the first delimiter, or until nothing is counted. */
  function ReadUntil(s: State, delimiter: byte): (State, seq<byte>)
    requires Shaped(s)
    decreases s.bytes
  {
    if s.bytes == 0 then (s, [])
    else
      ReadStaysShaped(s);
      var (s1, r) := Read(s);
      if r.b == delimiter then (s1, [r.b])
      else
        var (s2, more) := ReadUntil(s1, delimiter);
        (s2, [r.b] + more)
  }

  /** From a good state, reading several bytes takes a prefix. */
  lemma {:induction false} ReadManyTakesPrefix(s: State, n: nat)
    requires Good(s)
    ensures var (s', data) := ReadMany(s, n);
            var k := if n <= |Contents(s)| then n else |Contents(s)|;
            Good(s') && data == Contents(s)[..k] && Contents(s') == Contents(s)[k..]
    decreases n
  {
    hide Contents, Read;
    if n > 0 && s.bytes > 0 {
      ReadTakesFirst(s);
      ReadManyTakesPrefix(Read(s).0, n - 1);
    }
  }

  /** From a good state, reading up to a delimiter takes the shortest prefix that ends in one, or all. */
  lemma {:induction false} ReadUntilTakesPrefix(s: State, delimiter: byte)
    requires Good(s)
    ensures var (s', data) := ReadUntil(s, delimiter);
            Good(s') && Contents(s) == data + Contents(s') &&
            (forall i :: 0 <= i < |data| - 1 ==> data[i] != delimiter) &&
            (data == [] || data[|data| - 1] != delimiter ==> Contents(s') == [])
    decreases s.bytes
  {
    hide Contents, Read;
    if s.bytes > 0 {
      ReadTakesFirst(s);
      var s1 := Read(s).0;
      ReadStaysShaped(s);
      if Read(s).1.b != delimiter { ReadUntilTakesPrefix(s1, delimiter); }
    }
  }

  // ---------------------------------------------------------------------------
  // What goes wrong in those two states
  // ---------------------------------------------------------------------------

  /** n reads in a row return exactly these bytes. */
  predicate Serves(s: State, data: seq<byte>)
    requires Shaped(s)
    decreases |data|
  {
    data == [] ||
    (ReadStaysShaped(s); s.bytes > 0 && Read(s).1 == Got(data[0]) && Serves(Read(s).0, data[1..]))
  }

  lemma {:induction false} GoodServes(s: State)
    requires Good(s)
    ensures Serves(s, Contents(s))
    decreases s.bytes
  {
    hide Contents, Read;
    if s.bytes > 0 {
      ReadTakesFirst(s);
      ReadStaysShaped(s);
      GoodServes(Read(s).0);
    }
  }

  function Same(b: byte, n: nat): (r: seq<byte>)
    ensures |r| == n && forall i :: 0 <= i < n ==> r[i] == b
  {
    if n == 0 then [] else [b] + Same(b, n - 1)
  }

  /** Nothing is queued and the reader is past what was last written, which is w. */
  predicate Rereads(s: State, w: seq<byte>) {
    Shaped(s) && s.queue == [] && s.rpos >= s.rlen && |w| <= 1 && s.wlen == |w| && w <= s.wbuf &&
    (w == [] ==> s.wbuf == Zeros(BLOCK_SIZE))
  }

  /** Then every further read returns the same byte again. */
  lemma RereadStep(s: State, w: seq<byte>)
    requires Rereads(s, w) && s.bytes > 0
    ensures Read(s).1 == Got(if w == [] then 0 else w[0]) && Rereads(Read(s).0, w) && Read(s).0.bytes == s.bytes - 1
  {
  }

  lemma RereadsShaped(s: State, w: seq<byte>)
    requires Rereads(s, w)
    ensures Shaped(s)
  {
  }

  lemma {:induction false} RereadServes(s: State, w: seq<byte>, data: seq<byte>)
    requires Rereads(s, w) && |data| <= s.bytes
    ensures Serves(s, data) <==> forall i :: 0 <= i < |data| ==> data[i] == if w == [] then 0 else w[0]
    decreases |data|
  {
    hide Rereads, Read;
    RereadsShaped(s, w);
    if data != [] {
      ReadStaysShaped(s);
      RereadStep(s, w);
      RereadServes(Read(s).0, w, data[1..]);
      assert forall i :: 1 <= i < |data| ==> data[i] == data[1..][i - 1];
    }
  }

  /** A byte written in the full stale state takes the place of the whole block held: all reads, as many
      as are counted, return that byte. */
  lemma StaleWriteLosesBlock(s: State, b: byte)
    requires Good(s) && Stale(s) && s.wlen == BLOCK_SIZE
    ensures |Contents(s)| == BLOCK_SIZE
    ensures Shaped(Write(s, b)) && Write(s, b).bytes == BLOCK_SIZE + 1
    ensures Serves(Write(s, b), Same(b, BLOCK_SIZE + 1))
  {
    hide Serves, Zeros;
    StaleWriteRereads(s, b);
    RereadServes(Write(s, b), [b], Same(b, BLOCK_SIZE + 1));
  }

  lemma StaleWriteRereads(s: State, b: byte)
    requires Good(s) && Stale(s) && s.wlen == BLOCK_SIZE
    ensures |Contents(s)| == BLOCK_SIZE && Rereads(Write(s, b), [b]) && Write(s, b).bytes == BLOCK_SIZE + 1
  {
    var s' := Write(s, b);
    assert s'.wbuf == [] + [b] + Zeros(BLOCK_SIZE)[1..];
  }

  /** The counter matters only in that it must not be used up. */
  lemma {:induction false} ServesFewer(s: State, t: State, data: seq<byte>, more: seq<byte>)
    requires Shaped(s) && Shaped(t) && s.bytes >= |data| && Serves(t, data + more)
    requires s == t || s.(bytes := 0) == t.(bytes := 0) ||
             (data != [] && Reload(s).(bytes := 0) == Reload(t).(bytes := 0))
    ensures Serves(s, data)
    decreases |data|
  {
    hide Shaped;
    if data != [] {
      ReadStaysShaped(s);
      ReadStaysShaped(t);
      assert (data + more)[0] == data[0] && (data + more)[1..] == data[1..] + more;
      assert Read(s).0.(bytes := 0) == Read(t).0.(bytes := 0) && Read(s).1 == Read(t).1;
      ServesFewer(Read(s).0, Read(t).0, data[1..], more);
    }
  }

  /** A byte written while blocks are queued ahead overtakes all of them. */
  lemma AheadWriteOvertakes(s: State, b: byte)
    requires Good(s) && QueuedAhead(s)
    ensures Shaped(Write(s, b)) && Serves(Write(s, b), [b] + Contents(s))
  {
    hide Flat, Serves;
    QueuedNonempty(s);
    AheadWriteState(s, b);
    var s1 := Read(Write(s, b)).0;
    var t := s1.(shared := false, bytes := s.bytes + 1);
    GoodServes(t);
    ServesFewer(s1, t, Contents(s), [b]);
    FirstServed(Write(s, b), b, Contents(s));
  }

  lemma FirstServed(s: State, b: byte, data: seq<byte>)
    requires Shaped(s) && s.bytes > 0 && Read(s).1 == Got(b) && Shaped(Read(s).0) && Serves(Read(s).0, data)
    ensures Serves(s, [b] + data)
  {
    hide Shaped, Read;
    assert ([b] + data)[1..] == data;
  }

  lemma AheadWriteState(s: State, b: byte)
    requires Good(s) && QueuedAhead(s) && s.bytes > 0
    ensures var w := Write(s, b);
            Shaped(w) && w.bytes > 0 && Read(w).1 == Got(b) &&
            var s1 := Read(w).0;
            var t := s1.(shared := false, bytes := s.bytes + 1);
            Shaped(s1) && s1.bytes == s.bytes && Good(t) && Contents(t) == Contents(s) + [b] &&
            Reload(s1).(bytes := 0) == Reload(t).(bytes := 0)
  {
    hide Flat;
    var s1 := Read(Write(s, b)).0;
    assert s1.wbuf[..1] == [b];
  }

  lemma QueuedNonempty(s: State)
    requires Good(s) && QueuedAhead(s)
    ensures Contents(s) != [] && s.bytes > 0
  {
  }

  lemma StaleHolds(s: State)
    requires Good(s) && Stale(s)
    ensures |Contents(s)| == s.wlen == s.bytes
  {
  }

  /**
   write(int) keeps first-in-first-out order, whatever the byte, exactly when the guard holds: otherwise
   it is lost with the block that was held, or overtakes what is queued.
   */
  lemma WriteIsFifoIff(s: State)
    requires Good(s)
    ensures forall b :: Shaped(Write(s, b))
    ensures (forall b :: Serves(Write(s, b), Contents(s) + [b])) <==> SafeForByte(s)
  {
    hide Contents, Flat, Write, Read, Shaped;
    forall b: byte ensures Shaped(Write(s, b)) { WriteStaysShaped(s, b); }
    if SafeForByte(s) {
      forall b: byte ensures Serves(Write(s, b), Contents(s) + [b]) {
        WriteKeepsOrder(s, b);
        GoodServes(Write(s, b));
      }
    } else {
      UnsafeFirst(s);
      var b: byte := if Contents(s)[0] == 0 then 1 else 0;
      ServesFirst(Write(s, b), Contents(s) + [b]);
      if QueuedAhead(s) {
        AheadWriteOvertakes(s, b);
        ServesFirst(Write(s, b), [b] + Contents(s));
      } else {
        StaleWriteLosesBlock(s, b);
        ServesFirst(Write(s, b), Same(b, BLOCK_SIZE + 1));
      }
    }
  }

  lemma WriteStaysShaped(s: State, b: byte)
    requires Good(s)
    ensures Shaped(Write(s, b))
  {
    hide Contents;
  }

  lemma UnsafeFirst(s: State)
    requires Good(s) && (QueuedAhead(s) || Stale(s))
    ensures Contents(s) != []
  {
    hide Flat;
    if QueuedAhead(s) { QueuedNonempty(s); }
  }

  lemma ServesFirst(s: State, data: seq<byte>)
    requires Shaped(s) && data != []
    ensures Serves(s, data) ==> Read(s).1 == Got(data[0])
  {
    hide Shaped, Read;
  }

  /** The byte the next read returns after an unsafe array write: not the oldest one. */
  function Instead(s: State, data: seq<byte>): byte
    requires Shaped(s)
  {
    if QueuedAhead(s) && data != [] then data[0]
    else
      var len1 := BLOCK_SIZE - s.wlen;
      if len1 < |data| then data[len1] else 0
  }

  lemma UnsafeArray(s: State, data: seq<byte>)
    requires Good(s) && !SafeForArray(s, |data|)
    ensures s.bytes > 0 && Shaped(WriteArray(s, data)) && WriteArray(s, data).bytes > 0
    ensures Reload(WriteArray(s, data)).rpos < |Reload(WriteArray(s, data)).rbuf|
    ensures Read(WriteArray(s, data)).1 == Got(Instead(s, data))
  {
    if QueuedAhead(s) {
      QueuedNonempty(s);
      AheadArray(s, data);
    } else {
      StaleArray(s, data);
    }
  }

  lemma AheadArray(s: State, data: seq<byte>)
    requires Good(s) && QueuedAhead(s) && 0 < |data| <= BLOCK_SIZE
    ensures Shaped(WriteArray(s, data))
    ensures var s' := Reload(WriteArray(s, data));
            s'.rpos < |s'.rbuf| && s'.rbuf[s'.rpos] == data[0]
  {
    hide Flat, Put;
    var s0 := s.(bytes := s.bytes + |data|);
    assert data[..|data|] == data;
    PutAppends(s0, data);
    PutShares(s0, data);
    var s1 := Put(s0, data);
    assert s1.wbuf[..|data|][0] == data[0];
    if |data| == BLOCK_SIZE {
      var s2 := s1.(queue := s.queue, shared := false, wbuf := Zeros(BLOCK_SIZE), wlen := 0);
      PutAppends(s2, data[BLOCK_SIZE..]);
      PutShares(s2, data[BLOCK_SIZE..]);
    }
  }

  /** What Put does to the reader's side. */
  lemma PutShares(s: State, data: seq<byte>)
    requires Shaped(s) && s.wlen + |data| <= BLOCK_SIZE
    ensures var s' := Put(s, data);
            if s.shared then s'.rbuf == s'.wbuf && s'.rlen == s'.wlen else s'.rbuf == s.rbuf && s'.rlen == s.rlen
  {
  }

  lemma StaleArray(s: State, data: seq<byte>)
    requires Good(s) && Stale(s) && s.wlen + |data| >= BLOCK_SIZE
    ensures Shaped(WriteArray(s, data))
    ensures var s' := Reload(WriteArray(s, data));
            s'.rpos < |s'.rbuf| && s'.rbuf[s'.rpos] == Instead(s, data)
  {
    hide Flat, Put;
    var len1 := BLOCK_SIZE - s.wlen;
    var s0 := s.(bytes := s.bytes + |data|);
    PutAppends(s0, data[..len1]);
    PutShares(s0, data[..len1]);
    var s1 := Put(s0, data[..len1]);
    var s2 := s1.(queue := s.queue, shared := false, wbuf := Zeros(BLOCK_SIZE), wlen := 0);
    var rest := data[len1..];
    if |rest| <= BLOCK_SIZE {
      PutAppends(s2, rest);
      PutShares(s2, rest);
      var s' := Put(s2, rest);
      if rest != [] {
        assert s'.wbuf[..|rest|][0] == rest[0];
      } else {
        PutNothing(s2);
      }
    }
  }

  lemma PutNothing(s: State)
    requires Shaped(s)
    ensures Put(s, []).wbuf == s.wbuf
  {
  }

  /** An array that just fills the block in the stale state leaves only a buffer never written to be read. */
  lemma StaleFillRereads(s: State, data: seq<byte>)
    requires Good(s) && Stale(s) && s.wlen + |data| == BLOCK_SIZE
    ensures Rereads(WriteArray(s, data), []) && WriteArray(s, data).bytes == |Contents(s)| + |data|
  {
    hide Flat, Put;
    StaleHolds(s);
    var s0 := s.(bytes := s.bytes + |data|);
    assert data[..|data|] == data;
    PutAppends(s0, data);
    PutShares(s0, data);
    var s2 := Put(s0, data).(shared := false, wbuf := Zeros(BLOCK_SIZE), wlen := 0);
    PutAppends(s2, data[|data|..]);
    PutShares(s2, data[|data|..]);
    PutNothing(s2);
  }

  /**
   write(byte[]) keeps first-in-first-out order, whatever the n bytes, exactly when the guard holds; but
   an empty write that loses a block of zeros cannot be told from one that keeps it, since zeros are what
   is then read.
   */
  lemma WriteArrayIsFifoIff(s: State, n: nat)
    requires Good(s)
    ensures forall data: seq<byte> :: Shaped(WriteArray(s, data))
    ensures (forall data: seq<byte> | |data| == n :: Serves(WriteArray(s, data), Contents(s) + data)) <==>
            SafeForArray(s, n) || (n == 0 && forall i :: 0 <= i < |Contents(s)| ==> Contents(s)[i] == 0)
  {
    hide Contents, Flat, WriteArray, Read, Instead, Reload, Shaped;
    forall data: seq<byte> ensures Shaped(WriteArray(s, data)) { WriteArrayStaysShaped(s, data); }
    if SafeForArray(s, n) {
      forall data: seq<byte> | |data| == n ensures Serves(WriteArray(s, data), Contents(s) + data) {
        WriteArrayKeepsOrder(s, data);
        GoodServes(WriteArray(s, data));
      }
    } else if n == 0 {
      EmptyWriteIff(s);
    } else {
      var data := UnsafeArrayBreaks(s, n);
    }
  }

  lemma WriteArrayStaysShaped(s: State, data: seq<byte>)
    requires Good(s)
    ensures Shaped(WriteArray(s, data))
  {
    hide Contents, Flat, WriteArray, Read, Instead, Reload;
    if SafeForArray(s, |data|) { WriteArrayKeepsOrder(s, data); } else { UnsafeArray(s, data); }
  }

  lemma EmptyWriteIff(s: State)
    requires Good(s) && !SafeForArray(s, 0)
    ensures Shaped(WriteArray(s, []))
    ensures Serves(WriteArray(s, []), Contents(s) + []) <==> forall i :: 0 <= i < |Contents(s)| ==> Contents(s)[i] == 0
    ensures forall data: seq<byte> :: |data| == 0 ==> data == []
  {
    hide Contents, Flat, WriteArray, Serves, Rereads;
    StaleFillRereads(s, []);
    RereadsShaped(WriteArray(s, []), []);
    assert Contents(s) + [] == Contents(s);
    RereadServes(WriteArray(s, []), [], Contents(s));
  }

  lemma UnsafeArrayBreaks(s: State, n: nat) returns (data: seq<byte>)
    requires Good(s) && !SafeForArray(s, n) && n > 0
    ensures |data| == n && Shaped(WriteArray(s, data)) && !Serves(WriteArray(s, data), Contents(s) + data)
  {
    hide Contents, Flat, WriteArray, Read, Reload, Rereads, Shaped, Serves;
    UnsafeFirst(s);
    GoodShaped(s);
    if !QueuedAhead(s) && s.wlen + n == BLOCK_SIZE {
      data := Same(1, n);
      StaleFillRereads(s, data);
      RereadsShaped(WriteArray(s, data), []);
      RereadServes(WriteArray(s, data), [], Contents(s) + data);
      assert (Contents(s) + data)[|Contents(s)|] == 1;
    } else {
      data := Same(if Contents(s)[0] == 0 then 1 else 0, n);
      UnsafeArray(s, data);
      ServesFirst(WriteArray(s, data), Contents(s) + data);
    }
  }

  lemma GoodShaped(s: State)
    requires Good(s)
    ensures Shaped(s)
  {
  }

  // ---------------------------------------------------------------------------
  // Runs
  // ---------------------------------------------------------------------------

  datatype Op = PutByte(b: byte) | PutArray(data: seq<byte>) | TakeByte | ClearAll

  predicate Safe(s: State, op: Op) {
    match op
    case PutByte(_) => SafeForByte(s)
    case PutArray(data) => SafeForArray(s, |data|)
    case _ => true
  }

  function Do(s: State, op: Op): (State, seq<byte>)
    requires Shaped(s)
  {
    match op
    case PutByte(b) => (Write(s, b), [])
    case PutArray(data) => (WriteArray(s, data), [])
    case TakeByte => var (s', r) := Read(s); (s', if r.Got? then [r.b] else [])
    case ClearAll => (Clear(s), [])
  }

  /** What a first-in-first-out queue does. */
  function Ideal(q: seq<byte>, op: Op): (seq<byte>, seq<byte>) {
    match op
    case PutByte(b) => (q + [b], [])
    case PutArray(data) => (q + data, [])
    case TakeByte => if q == [] then (q, []) else (q[1..], [q[0]])
    case ClearAll => ([], [])
  }

  predicate SafeRun(s: State, ops: seq<Op>)
    requires Good(s)
    decreases |ops|
  {
    ops == [] || (Safe(s, ops[0]) && (DoIsIdeal(s, ops[0]); SafeRun(Do(s, ops[0]).0, ops[1..])))
  }

  function Outputs(s: State, ops: seq<Op>): (State, seq<byte>)
    requires Good(s) && SafeRun(s, ops)
    decreases |ops|
  {
    if ops == [] then (s, [])
    else
      DoIsIdeal(s, ops[0]);
      var (s1, out) := Do(s, ops[0]);
      var (s2, more) := Outputs(s1, ops[1..]);
      (s2, out + more)
  }

  function IdealOutputs(q: seq<byte>, ops: seq<Op>): (seq<byte>, seq<byte>)
    decreases |ops|
  {
    if ops == [] then (q, [])
    else
      var (q1, out) := Ideal(q, ops[0]);
      var (q2, more) := IdealOutputs(q1, ops[1..]);
      (q2, out + more)
  }

  lemma DoIsIdeal(s: State, op: Op)
    requires Good(s) && Safe(s, op)
    ensures Good(Do(s, op).0) && (Contents(Do(s, op).0), Do(s, op).1) == Ideal(Contents(s), op)
  {
    hide Contents, Flat, Write, WriteArray, Read;
    match op
    case PutByte(b) => WriteKeepsOrder(s, b);
    case PutArray(data) => WriteArrayKeepsOrder(s, data);
    case TakeByte => ReadTakesFirst(s);
    case ClearAll => EmptyIsGood(s);
  }

  /** Over any run of operations in which no write is made from an unsafe state, across all block
      switches and whether or not the two buffers are one, the queue behaves as a first-in-first-out
      sequence, and its byte count is the length of that sequence. */
  lemma {:induction false} RunIsFifo(s: State, ops: seq<Op>)
    requires Good(s) && SafeRun(s, ops)
    ensures var (end, out) := Outputs(s, ops);
            Good(end) && (Contents(end), out) == IdealOutputs(Contents(s), ops) && end.bytes == |Contents(end)|
    decreases |ops|
  {
    hide Contents, Flat, Do, Safe, Ideal;
    if ops != [] {
      DoIsIdeal(s, ops[0]);
      RunIsFifo(Do(s, ops[0]).0, ops[1..]);
    }
  }

  // ---------------------------------------------------------------------------
  // Runs that lead to the unsafe states
  // ---------------------------------------------------------------------------

  lemma {:induction false} OutputsAppend(s: State, first: seq<Op>, more: seq<Op>)
    requires Good(s) && SafeRun(s, first)
    ensures Good(Outputs(s, first).0)
    ensures SafeRun(Outputs(s, first).0, more) ==>
              SafeRun(s, first + more) && Outputs(s, first + more).0 == Outputs(Outputs(s, first).0, more).0
    decreases |first|
  {
    hide Good, Do, Safe;
    GoodShaped(s);
    if first == [] {
      assert first + more == more;
    } else {
      DoIsIdeal(s, first[0]);
      OutputsAppend(Do(s, first[0]).0, first[1..], more);
      assert (first + more)[0] == first[0] && (first + more)[1..] == first[1..] + more;
    }
  }

  lemma OneOp(s: State, op: Op)
    requires Good(s) && Safe(s, op)
    ensures SafeRun(s, [op]) && Outputs(s, [op]).0 == Do(s, op).0 && Good(Do(s, op).0)
  {
    hide Good, Do, Safe;
    DoIsIdeal(s, op);
    assert [op][1..] == [];
  }

  /** A safe run from the empty queue that ends in this state. */
  predicate Reaches(ops: seq<Op>, s: State) { Good(EMPTY) && SafeRun(EMPTY, ops) && Outputs(EMPTY, ops).0 == s }

  lemma Then(ops: seq<Op>, s: State, op: Op)
    requires Reaches(ops, s) && Good(s) && Safe(s, op)
    ensures Reaches(ops + [op], Do(s, op).0) && Good(Do(s, op).0)
  {
    hide Good, Do, Safe, Outputs, SafeRun;
    OneOp(s, op);
    OutputsAppend(EMPTY, ops, [op]);
  }

  /** Reading all that is left in the one block. */
  lemma {:induction false} ReadOut(ops: seq<Op>, s: State, n: nat) returns (more: seq<Op>)
    requires Reaches(ops, s) && Good(s) && s.shared && s.queue == [] && s.bytes == n && s.rpos + n == s.rlen
    ensures Reaches(more, s.(rpos := s.rlen, bytes := 0)) && Good(s.(rpos := s.rlen, bytes := 0))
    decreases n
  {
    hide Reaches;
    if n == 0 {
      more := ops;
    } else {
      Then(ops, s, TakeByte);
      ReadTakesFirst(s);
      more := ReadOut(ops + [TakeByte], s.(rpos := s.rpos + 1, bytes := n - 1), n - 1);
    }
  }

  /** The shared block with n bytes written and the reader at p. */
  predicate InBlock(s: State, n: nat, p: nat, bytes: nat) {
    Good(s) && s.shared && s.queue == [] && s.wlen == s.rlen == n && s.rpos == p && s.bytes == bytes
  }

  lemma FillBlock(ops: seq<Op>, s: State, n: nat, p: nat, bytes: nat, b: byte) returns (more: seq<Op>, s': State)
    requires Reaches(ops, s) && InBlock(s, n, p, bytes) && n < BLOCK_SIZE && (p <= n || bytes > 0)
    ensures Reaches(more, s') && InBlock(s', BLOCK_SIZE, p, bytes + BLOCK_SIZE - n)
  {
    hide Reaches, Contents, Flat;
    var data := Same(b, BLOCK_SIZE - 1 - n);
    Then(ops, s, PutArray(data));
    var s1 := Do(s, PutArray(data)).0;
    Then(ops + [PutArray(data)], s1, PutByte(b));
    more, s' := ops + [PutArray(data)] + [PutByte(b)], Do(s1, PutByte(b)).0;
  }

  /** How the two states come about: a full buffer used again after it has been read, and an array
      larger than a block written to a queue that has not been written since it was cleared; and a
      byte write brings about the first in no other way. */
  lemma UnsafeStatesArise(s: State, b: byte, data: seq<byte>)
    requires Good(s)
    ensures s.wlen == BLOCK_SIZE && s.bytes == 0 ==> Stale(Write(s, b))
    ensures s.shared && s.wlen == 0 && |data| > BLOCK_SIZE ==> QueuedAhead(WriteArray(s, data))
    ensures !Stale(s) && !(s.wlen == BLOCK_SIZE && s.bytes == 0) ==> !Stale(Write(s, b))
  {
    hide Flat, Contents;
    if s.wlen == BLOCK_SIZE && s.bytes == 0 { ReuseKeeps(s, b); }
    else if s.wlen < BLOCK_SIZE { PutAppends(s, [b]); }
  }

  /**
   Both states are reached from the empty queue by operations that are all safe: a block is filled, read
   to its end and filled once more; and an array larger than a block is written first of all.
   */
  lemma UnsafeStatesAreReached(b: byte) returns (stale: seq<Op>, ahead: seq<Op>)
    ensures Good(EMPTY) && SafeRun(EMPTY, stale) && SafeRun(EMPTY, ahead)
    ensures var s := Outputs(EMPTY, stale).0; Stale(s) && s.wlen == 16384 && !SafeForByte(s)
    ensures var s := Outputs(EMPTY, ahead).0; QueuedAhead(s) && !SafeForByte(s)
  {
    hide Outputs, SafeRun, Contents, Flat, Write;
    StartsEmpty();
    var s: State;
    stale, s := FillBlock([], EMPTY, 0, 0, 0, b);
    stale := ReadOut(stale, s, BLOCK_SIZE);
    s := s.(rpos := BLOCK_SIZE, bytes := 0);
    Then(stale, s, PutByte(b));
    ReuseKeeps(s, b);
    stale, s := stale + [PutByte(b)], Do(s, PutByte(b)).0;
    ReusedState(s);
    stale, s := FillBlock(stale, s, 1, BLOCK_SIZE, 1, b);
    var data := Same(b, BLOCK_SIZE + 1);
    Then([], EMPTY, PutArray(data));
    ahead := [] + [PutArray(data)];
  }

  lemma ReusedState(s: State)
    requires Good(s) && Stale(s) && s.wlen == 1
    ensures InBlock(s, 1, BLOCK_SIZE, 1)
  {
  }

  lemma StartsEmpty()
    ensures Reaches([], EMPTY) && InBlock(EMPTY, 0, 0, 0)
  {
  }
}
