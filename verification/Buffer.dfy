/** The growable byte buffer of base/Buffer.h and base/Buffer.cpp. Bytes are
    `char`; sizes are unbounded, so `size_t` overflow is not modelled. */
module Buffer {

  const CHEAP_PREPEND: nat := 8
  const INITIAL_SIZE: nat := 1024
  /** The stack area that catches what does not fit during a scatter read. */
  const EXTRA: nat := 65536

  /** What readv answered: an error, or the bytes it delivered in order. */
  datatype ReadOutcome = ReadFailed | ReadBytes(bytes: seq<char>)

  datatype Op = DoAppend(data: seq<char>) | DoRetrieve(len: nat) | DoRead(outcome: ReadOutcome)

  /** The same operation on a plain sequence of bytes. */
  function Plain(s: seq<char>, op: Op): seq<char>
  {
    match op
    case DoAppend(data) => s + data
    case DoRetrieve(len) => if len < |s| then s[len..] else []
    case DoRead(outcome) => if outcome.ReadBytes? then s + outcome.bytes else s
  }

  function PlainRun(s: seq<char>, ops: seq<Op>): seq<char>
    decreases ops
  {
    if ops == [] then s else PlainRun(Plain(s, ops[0]), ops[1..])
  }

  // ---------- The two indices and the size ----------

  datatype Layout = Layout(reader: nat, writer: nat, size: nat)
  {
    predicate Ok()
    {
      CHEAP_PREPEND <= reader <= writer <= size
    }

    /** Room for `len` bytes: there already, by growing, or by moving to the front. */
    function Roomy(len: nat): (l: Layout)
      requires Ok()
      ensures l.Ok() && l.size - l.writer >= len && l.writer - l.reader == writer - reader
    {
      if size - writer >= len then this
      else if size - writer + reader < len + CHEAP_PREPEND then this.(size := writer + len)
      else Layout(CHEAP_PREPEND, CHEAP_PREPEND + writer - reader, size)
    }

    function Appended(len: nat): (l: Layout)
      requires Ok()
      ensures l.Ok()
    {
      Roomy(len).(writer := Roomy(len).writer + len)
    }

    function Retrieved(len: nat): (l: Layout)
      requires Ok()
      ensures l.Ok()
    {
      if len < writer - reader then this.(reader := reader + len)
      else this.(reader := CHEAP_PREPEND, writer := CHEAP_PREPEND)
    }

    /** What one scatter read can deliver: the writable space, and the spill area
        when that space is smaller. */
    function Offered(): nat
      requires Ok()
    {
      size - writer + if size - writer < EXTRA then EXTRA else 0
    }

    function Read(n: nat): (l: Layout)
      requires Ok()
      ensures l.Ok()
    {
      if n <= size - writer then this.(writer := writer + n)
      else this.(writer := size).Appended(n - (size - writer))
    }

    function After(op: Op): (l: Layout)
      requires Ok()
      ensures l.Ok()
    {
      match op
      case DoAppend(data) => Appended(|data|)
      case DoRetrieve(len) => Retrieved(len)
      case DoRead(outcome) => if outcome.ReadBytes? then Read(|outcome.bytes|) else this
    }
  }

  /** No read of the run delivers more than it was offered. */
  predicate Possible(l: Layout, ops: seq<Op>)
    requires l.Ok()
    decreases ops
  {
    ops != [] ==>
      && (ops[0].DoRead? && ops[0].outcome.ReadBytes? ==> |ops[0].outcome.bytes| <= l.Offered())
      && Possible(l.After(ops[0]), ops[1..])
  }

  class Buffer {
    var store: array<char>
    var reader: nat
    var writer: nat

    function View(): Layout
      reads this
    {
      Layout(reader, writer, store.Length)
    }

    predicate Valid()
      reads this
    {
      View().Ok()
    }

    /** The readable bytes: all a user of the class can observe. */
    function Readable(): seq<char>
      requires Valid()
      reads this, store
    {
      store[reader..writer]
    }

    function WritableBytes(): nat
      requires Valid()
      reads this
    {
      store.Length - writer
    }

    constructor (initialSize: nat)
      ensures Valid() && fresh(store) && Readable() == [] && WritableBytes() == initialSize
    {
      store := new char[CHEAP_PREPEND + initialSize](_ => '\0');
      reader, writer := CHEAP_PREPEND, CHEAP_PREPEND;
    }

    method RetrieveAll()
      requires Valid()
      modifies this`reader, this`writer
      ensures Valid() && Readable() == []
      ensures View() == old(View()).(reader := CHEAP_PREPEND, writer := CHEAP_PREPEND)
    {
      reader, writer := CHEAP_PREPEND, CHEAP_PREPEND;
    }

    /** Drops `len` bytes, or everything when fewer are readable. */
    method Retrieve(len: nat)
      requires Valid()
      modifies this`reader, this`writer
      ensures Valid() && Readable() == Plain(old(Readable()), DoRetrieve(len)) && View() == old(View()).Retrieved(len)
    {
      if len < writer - reader {
        reader := reader + len;
      } else {
        RetrieveAll();
      }
    }

    method RetrieveAsString(len: nat) returns (result: seq<char>)
      requires Valid() && len <= |Readable()|
      modifies this`reader, this`writer
      ensures Valid() && result + Readable() == old(Readable()) && |result| == len
    {
      ghost var before := Readable();
      result := store[reader..reader + len];
      assert result == before[..len];
      Retrieve(len);
      assert Readable() == before[len..];
      assert before == before[..len] + before[len..];
    }

    /** Makes room for `len` more bytes by growing, or by moving the readable
        bytes to the front. The move copies forward over an overlapping range;
        it is reached only with the source behind the target, so no byte is
        overwritten before it is copied. */
    method MakeSpace(len: nat)
      requires Valid() && WritableBytes() < len
      modifies this, store
      ensures Valid() && Readable() == old(Readable()) && WritableBytes() >= len
      ensures store.Length == old(store.Length) <==> old(store.Length - writer + reader) >= len + CHEAP_PREPEND
      ensures store.Length != old(store.Length) ==> WritableBytes() == len
      ensures View() == old(View()).Roomy(len) && (store == old(store) || fresh(store))
    {
      if store.Length - writer + reader < len + CHEAP_PREPEND {
        var bigger := new char[writer + len](i requires 0 <= i < writer + len reads this, store =>
          if i < store.Length then store[i] else '\0');
        store := bigger;
      } else {
        assert reader > CHEAP_PREPEND;
        var readable := writer - reader;
        ghost var before := store[reader..writer];
        var i := 0;
        while i < readable
          invariant 0 <= i <= readable && store == old(store)
          invariant reader == old(reader) && writer == old(writer)
          invariant forall j :: 0 <= j < i ==> store[CHEAP_PREPEND + j] == before[j]
          invariant forall j :: i <= j < readable ==> store[reader + j] == before[j]
        {
          store[CHEAP_PREPEND + i] := store[reader + i];
          i := i + 1;
        }
        reader := CHEAP_PREPEND;
        writer := reader + readable;
        assert store[reader..writer] == before;
      }
    }

    method EnsureWritableBytes(len: nat)
      requires Valid()
      modifies this, store
      ensures Valid() && Readable() == old(Readable()) && WritableBytes() >= len
      ensures View() == old(View()).Roomy(len) && (store == old(store) || fresh(store))
    {
      if store.Length - writer < len {
        MakeSpace(len);
      }
    }

    /** Copies `data` to the write position, which has room for it. */
    method Place(data: seq<char>)
      requires Valid() && |data| <= WritableBytes()
      modifies store
      ensures Valid() && store[..writer] == old(store[..writer])
      ensures store[writer..writer + |data|] == data
    {
      forall i | 0 <= i < |data| {
        store[writer + i] := data[i];
      }
    }

    method Append(data: seq<char>)
      requires Valid()
      modifies this, store
      ensures Valid() && Readable() == old(Readable()) + data
      ensures View() == old(View()).Appended(|data|) && (store == old(store) || fresh(store))
    {
      hide Layout.Roomy;
      EnsureWritableBytes(|data|);
      ghost var kept := store[..writer];
      Place(data);
      writer := writer + |data|;
      assert store[reader..writer] == kept[reader..] + data;
    }

    /** One scatter read: the kernel fills the writable space first and the spill
        area after it, and offers the spill area only to a buffer with less than
        its size to spare. */
    method ReadFd(outcome: ReadOutcome) returns (n: int)
      requires Valid()
      requires outcome.ReadBytes? ==> |outcome.bytes| <= View().Offered()
      modifies this, store
      ensures Valid() && (store == old(store) || fresh(store))
      ensures outcome.ReadFailed? ==> n == -1 && Readable() == old(Readable())
      ensures outcome.ReadBytes? ==> n == |outcome.bytes| && Readable() == old(Readable()) + outcome.bytes
      ensures View() == old(View()).After(DoRead(outcome))
    {
      hide Layout.Appended;
      if outcome.ReadFailed? {
        return -1;
      }
      n := |outcome.bytes|;
      var writable := store.Length - writer;
      ghost var kept := store[..writer];
      if n <= writable {
        Place(outcome.bytes);
        writer := writer + n;
        assert store[reader..writer] == kept[reader..] + outcome.bytes;
      } else {
        Place(outcome.bytes[..writable]);
        writer := store.Length;
        assert store[reader..writer] == kept[reader..] + outcome.bytes[..writable];
        Append(outcome.bytes[writable..]);
        assert outcome.bytes == outcome.bytes[..writable] + outcome.bytes[writable..];
      }
    }

    /** Any run of operations behaves as on a plain sequence of bytes. */
    method Replay(ops: seq<Op>)
      requires Valid() && Possible(View(), ops)
      modifies this, store
      ensures Valid() && Readable() == PlainRun(old(Readable()), ops)
    {
      for i := 0 to |ops|
        invariant Valid() && (store == old(store) || fresh(store))
        invariant Possible(View(), ops[i..])
        invariant PlainRun(Readable(), ops[i..]) == PlainRun(old(Readable()), ops)
      {
        assert ops[i..][1..] == ops[i + 1..];
        match ops[i] {
          case DoAppend(data) => Append(data);
          case DoRetrieve(len) => Retrieve(len);
          case DoRead(outcome) => var _ := ReadFd(outcome);
        }
      }
    }
  }
}
