/**
 BlockingByteQueue.java as a class over arrays, its operations proved against `ByteQueues`.  A
 thread that has to wait is not modelled: each read is the part after the wait.
 */
module BlockingByteQueues {
  import opened ByteQueues

  class BlockingByteQueue {
    var queue: seq<array<byte>>
    var wbuf: array<byte>
    var rbuf: array<byte>
    var bytes: nat
    var wlen: nat
    var rlen: nat
    var rpos: nat

    /** The arrays this queue reads. */
    ghost function Footprint(): set<object>
      reads this
    {
      {wbuf, rbuf} + set i | 0 <= i < |queue| :: queue[i]
    }

    ghost predicate Valid()
      reads this, Footprint()
    {
      wbuf !in queue && Shaped(View())
    }

    ghost function View(): State
      reads this, Footprint()
    {
      State(rbuf == wbuf, wbuf[..], wlen, rbuf[..], rlen, rpos, Arrays(queue), bytes)
    }

    constructor ()
      ensures Valid() && View() == EMPTY && fresh(Footprint())
    {
      queue := [];
      wbuf := new byte[BLOCK_SIZE](_ => 0);
      wlen, bytes := 0, 0;
      new;
      rbuf := wbuf;
      rlen, rpos := 0, 0;
      assert wbuf[..] == Zeros(BLOCK_SIZE);
    }

    method Clear()
      requires Valid()
      modifies this
      ensures Valid() && View() == ByteQueues.Clear(old(View()))
      ensures wbuf == old(wbuf) && Footprint() <= old(Footprint())
      ensures rbuf == wbuf && queue == [] && wlen == rlen == rpos == bytes == 0
    {
      queue := [];
      rbuf := wbuf;
      wlen, rlen, rpos, bytes := 0, 0, 0, 0;
    }

    /** Take a new write buffer, retiring the old one to the queue unless it is being read. */
    method Retire()
      requires Valid()
      modifies this
      ensures Valid() && fresh(wbuf) && Footprint() <= old(Footprint()) + {wbuf}
      ensures View() == Retired(old(View()))
    {
      if rbuf != wbuf { queue := queue + [wbuf]; }
      wbuf := new byte[BLOCK_SIZE](_ => 0);
      wlen := 0;
      assert wbuf[..] == Zeros(BLOCK_SIZE);
      ArraysAppend(old(queue), old(wbuf));
    }

    /** write(int) */
    method Write(c: int)
      requires Valid()
      modifies this, wbuf
      ensures Valid() && View() == ByteQueues.Write(old(View()), ToByte(c))
      ensures wbuf == old(wbuf) || fresh(wbuf)
      ensures Footprint() <= old(Footprint()) + {wbuf}
    {
      hide Put;
      if wlen == BLOCK_SIZE {
        if bytes > 0 { Retire(); } else { wlen := 0; }
      }
      PutByte(ToByte(c));
      bytes := bytes + 1;
    }

    method PutByte(b: byte)
      requires Valid() && wlen < BLOCK_SIZE
      modifies wbuf, this`wlen, this`rlen
      ensures Valid() && View() == Put(old(View()), [b])
    {
      ghost var s := View();
      wbuf[wlen] := b;
      assert wbuf[..] == s.wbuf[..s.wlen] + [b] + s.wbuf[s.wlen + 1..];
      wlen := wlen + 1;
      if rbuf == wbuf { rlen := wlen; }
      assert Arrays(queue) == s.queue;
    }

    /** System.arraycopy from the array into the write buffer, and the lengths that go with it. */
    method Copy(buf: array<byte>, from: nat, n: nat)
      requires Valid() && buf != wbuf && from + n <= buf.Length && wlen + n <= BLOCK_SIZE
      modifies wbuf, this`wlen, this`rlen
      ensures Valid() && View() == Put(old(View()), old(buf[..])[from..from + n])
    {
      ghost var s := View();
      ghost var data := buf[..][from..from + n];
      forall i | 0 <= i < n { wbuf[wlen + i] := buf[from + i]; }
      assert wbuf[..] == s.wbuf[..s.wlen] + data + s.wbuf[s.wlen + n..];
      wlen := wlen + n;
      if rbuf == wbuf { rlen := wlen; }
      assert Arrays(queue) == s.queue;
    }

    /** write(byte[]).  A large array is queued as it is, so the caller must not change it after. */
    method WriteArray(buf: array<byte>)
      requires Valid() && buf != wbuf
      modifies this, wbuf
      ensures Valid() && View() == ByteQueues.WriteArray(old(View()), buf[..]) && buf[..] == old(buf[..])
      ensures wbuf == old(wbuf) || fresh(wbuf)
    {
      hide Put;
      ghost var data := buf[..];
      bytes := bytes + buf.Length;
      assert View() == old(View()).(bytes := bytes);
      if wlen == 0 && buf.Length > BLOCK_SIZE {
        Enqueue(buf);
      } else if wlen + buf.Length < BLOCK_SIZE {
        assert data[0..|data|] == data;
        Copy(buf, 0, buf.Length);
      } else {
        FillBlock(buf);
      }
    }

    method Enqueue(buf: array<byte>)
      requires Valid() && buf != wbuf && buf.Length > 0
      modifies this`queue
      ensures Valid() && View() == old(View()).(queue := old(View()).queue + [buf[..]])
    {
      queue := queue + [buf];
      ArraysAppend(old(queue), buf);
    }

    /** The array reaches past the end of the write buffer. */
    method FillBlock(buf: array<byte>)
      requires Valid() && buf != wbuf && wlen + buf.Length >= BLOCK_SIZE
      modifies this, wbuf
      ensures Valid() && buf[..] == old(buf[..]) && (wbuf == old(wbuf) || fresh(wbuf))
      ensures var s, data := old(View()), buf[..];
              var len1 := BLOCK_SIZE - s.wlen;
              var s1 := Put(s, data[..len1]);
              var s2 := Retired(s1);
              View() == if |data| - len1 > BLOCK_SIZE then s2.(queue := s2.queue + [data[len1..]])
                        else Put(s2, data[len1..])
    {
      hide Put;
      ghost var data := buf[..];
      var len1 := BLOCK_SIZE - wlen;
      PutFields(View(), data[..len1]);
      assert data[0..len1] == data[..len1];
      Copy(buf, 0, len1);
      Retire();
      var len2 := buf.Length - len1;
      assert data[len1..len1 + len2] == data[len1..];
      if len2 > BLOCK_SIZE {
        EnqueueRest(buf, len1);
      } else {
        Copy(buf, len1, len2);
      }
    }

    method EnqueueRest(buf: array<byte>, from: nat)
      requires Valid() && from < buf.Length
      modifies this`queue
      ensures Valid() && View() == old(View()).(queue := old(View()).queue + [buf[from..]])
    {
      var rest := new byte[buf.Length - from](i requires 0 <= i < buf.Length - from reads buf => buf[from + i]);
      assert rest[..] == buf[from..];
      Enqueue(rest);
    }

    /** read(), after any wait: -1 when there is still nothing.  It never reads outside an array, not
        even in a state left by an unsafe write; from a good state it takes the oldest byte. */
    method Read() returns (c: int)
      requires Valid()
      modifies this
      ensures Valid() && wbuf == old(wbuf) && Footprint() <= old(Footprint())
      ensures var (s, r) := ByteQueues.Read(old(View()));
              View() == s && c == if r.Nothing? then -1 else Unsigned(r.b)
      ensures Good(old(View())) ==>
                var all := Contents(old(View()));
                Good(View()) &&
                if all == [] then c == -1 && Contents(View()) == []
                else c == Unsigned(all[0]) && Contents(View()) == all[1..]
    {
      if Good(View()) { ReadTakesFirst(View()); }
      if bytes == 0 { return -1; }
      c := Advance();
    }

    /** The part of read() that follows when there are bytes. */
    method Advance() returns (c: int)
      requires Valid() && bytes > 0
      modifies this
      ensures Valid() && wbuf == old(wbuf) && Footprint() <= old(Footprint())
      ensures var (s, r) := ByteQueues.Read(old(View()));
              View() == s && r.Got? && c == Unsigned(r.b)
    {
      if rpos >= rlen {
        if queue != [] {
          rbuf, queue := queue[0], queue[1..];
          rlen := rbuf.Length;
        } else {
          rbuf := wbuf;
          rlen := wlen;
        }
        rpos := 0;
      }
      c := rbuf[rpos];
      rpos := rpos + 1;
      if c < 0 { c := c + 256; }
      bytes := bytes - 1;
    }

    /** read(byte[]): fills the array as far as there are bytes; from a good state, with a prefix. */
    method ReadArray(buf: array<byte>) returns (n: nat)
      requires Valid() && buf !in Footprint()
      modifies this, buf
      ensures Valid() && wbuf == old(wbuf) && n <= buf.Length
      ensures (View(), buf[..n]) == ReadMany(old(View()), buf.Length) && buf[n..] == old(buf[..])[n..]
      ensures Good(old(View())) ==>
                Good(View()) &&
                n == (if buf.Length <= |Contents(old(View()))| then buf.Length else |Contents(old(View()))|) &&
                buf[..n] == Contents(old(View()))[..n] && Contents(View()) == Contents(old(View()))[n..]
    {
      hide Contents, Good, ByteQueues.Read, Shaped, Arrays, ReadMany;
      ghost var s := View();
      ghost var orig := buf[..];
      if Good(s) { ReadManyTakesPrefix(s, buf.Length); }
      n := 0;
      Around(ReadMany(s, buf.Length).1);
      assert buf[..0] == [];
      while n < buf.Length
        invariant Valid() && wbuf == old(wbuf) && Footprint() <= old(Footprint())
        invariant 0 <= n <= buf.Length && buf[n..] == orig[n..] && buf !in Footprint()
        invariant ReadMany(s, buf.Length) ==
                  var (s', more) := ReadMany(View(), buf.Length - n); (s', buf[..n] + more)
      {
        ghost var before, done := View(), buf[..n];
        ReadManyNext(before, buf.Length - n);
        Around(done);
        if n > 0 && bytes == 0 { return; }
        var c := Read();
        if c < 0 { return; }
        ByteRoundTrip(ByteQueues.Read(before).1.b);
        ghost var b := ByteQueues.Read(before).1.b;
        StoreByte(buf, n, ToByte(c), View());
        StoredNext(orig, done, buf[..], n, b);
        ghost var more := ReadMany(View(), buf.Length - n - 1).1;
        assert done + ([b] + more) == buf[..n + 1] + more;
        n := n + 1;
      }
      ReadManyNext(View(), 0);
      Around(buf[..n]);
    }

    /** buf[n] = c, which changes nothing in the queue. */
    method StoreByte(buf: array<byte>, n: nat, b: byte, ghost s: State)
      requires Valid() && View() == s && buf !in Footprint() && n < buf.Length
      modifies buf
      ensures Valid() && View() == s
      ensures buf[..] == old(buf[..])[n := b]
    {
      buf[n] := b;
      assert Arrays(queue) == s.queue;
    }

    /** readAvailable(): as many bytes as are counted; null when there are none. */
    method ReadAvailable() returns (buf: array?<byte>)
      requires Valid()
      modifies this
      ensures Valid()
      ensures old(bytes) == 0 ==> buf == null && View() == old(View())
      ensures old(bytes) > 0 ==> buf != null && (View(), buf[..]) == ReadMany(old(View()), old(bytes))
      ensures Good(old(View())) ==>
                Good(View()) && Contents(View()) == [] &&
                var all := Contents(old(View()));
                if all == [] then buf == null else buf != null && buf[..] == all
    {
      ghost var s := View();
      if bytes == 0 { return null; }
      ReadManyLength(s, bytes);
      buf := new byte[bytes](_ => 0);
      var n := ReadArray(buf);
      assert buf[..n] == buf[..];
      if Good(s) { assert Contents(s)[..n] == Contents(s); }
    }

    /** readDelimited(): up to and including the first delimiter, or all there is; the empty result
        stands for null. */
    method ReadDelimited(delimiter: byte) returns (r: seq<byte>)
      requires Valid()
      modifies this
      ensures Valid() && (View(), r) == ReadUntil(old(View()), delimiter)
      ensures Good(old(View())) ==>
                Good(View()) && Contents(old(View())) == r + Contents(View()) &&
                (forall i :: 0 <= i < |r| - 1 ==> r[i] != delimiter) &&
                (r == [] || r[|r| - 1] != delimiter ==> Contents(View()) == [])
    {
      hide Contents, Good, ByteQueues.Read, Shaped, Arrays, ReadUntil;
      ghost var s := View();
      if Good(s) { ReadUntilTakesPrefix(s, delimiter); }
      var c := -1;
      var d: int := delimiter;
      if d < 0 { d := d + 256; }
      r := [];
      Around(ReadUntil(s, delimiter).1);
      while c != d
        invariant Valid() && wbuf == old(wbuf) && d == Unsigned(delimiter)
        invariant if c == d then ReadUntil(s, delimiter) == (View(), r)
                  else ReadUntil(s, delimiter) == var (s', more) := ReadUntil(View(), delimiter); (s', r + more)
        decreases c != d, bytes
      {
        ghost var before := View();
        ReadUntilNext(before, delimiter);
        c := Read();
        if c < 0 {
          Around(r);
          if r == [] { return []; }
          break;
        }
        ghost var b := ByteQueues.Read(before).1.b;
        ByteRoundTrip(b);
        ByteRoundTrip(delimiter);
        ReadStaysShaped(before);
        PushNext(r, b, ReadUntil(View(), delimiter).1);
        r := r + [ToByte(c)];
      }
    }
  }

  lemma Around(s: seq<byte>)
    ensures [] + s == s && s + [] == s
  {
  }

  lemma ReadManyNext(s: State, n: nat)
    requires Shaped(s)
    ensures Shaped(ByteQueues.Read(s).0)
    ensures ReadMany(s, n) ==
            if n == 0 || s.bytes == 0 then (s, [])
            else var (s', more) := ReadMany(ByteQueues.Read(s).0, n - 1); (s', [ByteQueues.Read(s).1.b] + more)
    ensures ByteQueues.Read(s).1.Got? <==> s.bytes > 0
    ensures s.bytes == 0 ==> ByteQueues.Read(s).0 == s
  {
    hide Shaped;
    ReadStaysShaped(s);
  }

  lemma {:induction false} ReadManyLength(s: State, n: nat)
    requires Shaped(s) && n <= s.bytes
    ensures |ReadMany(s, n).1| == n
    decreases n
  {
    hide Shaped, ByteQueues.Read;
    if n > 0 {
      ReadStaysShaped(s);
      ReadManyLength(ByteQueues.Read(s).0, n - 1);
    }
  }

  lemma ReadUntilNext(s: State, delimiter: byte)
    requires Shaped(s)
    ensures Shaped(ByteQueues.Read(s).0)
    ensures ReadUntil(s, delimiter) ==
            if s.bytes == 0 then (s, [])
            else
              var (s1, r) := ByteQueues.Read(s);
              if r.b == delimiter then (s1, [r.b])
              else var (s2, more) := ReadUntil(s1, delimiter); (s2, [r.b] + more)
    ensures ByteQueues.Read(s).1.Got? <==> s.bytes > 0
    ensures s.bytes == 0 ==> ByteQueues.Read(s).0 == s
  {
    hide Shaped;
    ReadStaysShaped(s);
  }

  lemma PushNext(r: seq<byte>, b: byte, more: seq<byte>)
    ensures r + ([b] + more) == r + [b] + more
  {
  }

  /** A byte stored behind those that are done. */
  lemma StoredNext(orig: seq<byte>, done: seq<byte>, buf: seq<byte>, n: nat, b: byte)
    requires n < |orig| == |buf| && |done| == n && buf == (done + orig[n..])[n := b]
    ensures buf[..n + 1] == done + [b] && buf[n + 1..] == orig[n + 1..]
    ensures forall more: seq<byte> :: done + ([b] + more) == buf[..n + 1] + more
  {
  }

  lemma PutFields(s: State, data: seq<byte>)
    requires Shaped(s) && s.wlen + |data| <= BLOCK_SIZE
    ensures var s' := Put(s, data); s'.shared == s.shared && s'.queue == s.queue
  {
  }

  lemma ArraysAppend(q: seq<array<byte>>, a: array<byte>)
    ensures Arrays(q + [a]) == Arrays(q) + [a[..]]
  {
  }

  ghost function Arrays(q: seq<array<byte>>): (r: seq<seq<byte>>)
    reads set i | 0 <= i < |q| :: q[i]
    ensures |r| == |q| && forall i :: 0 <= i < |q| ==> r[i] == q[i][..]
  {
    seq(|q|, i requires 0 <= i < |q| reads set i | 0 <= i < |q| :: q[i] => q[i][..])
  }
}
