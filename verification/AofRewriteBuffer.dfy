/** The AOF rewrite buffer: changes made while a child rewrites the file, kept in blocks of
    fixed size and sent to the child piece by piece. */
module AofRewriteBuffer {
  import AofRewrite

  const BLOCK_SIZE: nat := 10485760

  /** The pipe to the child, and any other descriptor written to: how much of a write is
      taken is not determined. */
  class Descriptor {
    var data: string
    /** The last write took nothing. */
    var blocked: bool

    constructor ()
      ensures data == ""
    {
      data, blocked := "", false;
    }

    /** write(2): a negative result is an error, a smaller one a partial write. */
    method Write(bytes: string) returns (n: int)
      modifies this
      ensures n <= |bytes|
      ensures data == old(data) + (if n > 0 then bytes[..n] else "") && blocked == (n <= 0)
    {
      n :| -1 <= n <= |bytes|;
      blocked := n <= 0;
      if n > 0 { data := data + bytes[..n]; }
    }

    /** read(2) on a non-blocking pipe: something, unless the pipe is empty. */
    method Read(size: nat) returns (n: int, bytes: string)
      requires size > 0
      modifies this
      ensures n <= 0 <==> old(data) == ""
      ensures n > 0 ==> n <= size && |bytes| == n && old(data) == bytes + data
      ensures n <= 0 ==> data == old(data)
    {
      if data == "" { return -1, ""; }
      n :| 0 < n <= size && n <= |data|;
      bytes := data[..n];
      data := data[n..];
    }
  }

  /** aofrwblock */
  class Block {
    var used: nat
    var free: nat
    const buf: array<char>

    /** Bytes sent to the child give no room back: `used` falls and `free` stays. */
    ghost predicate Valid()
      reads this
    {
      buf.Length == BLOCK_SIZE && used + free <= BLOCK_SIZE
    }

    ghost function Bytes(): string
      reads this, buf
    {
      if used <= buf.Length then buf[..used] else ""
    }

    constructor ()
      ensures Valid() && used == 0 && free == BLOCK_SIZE && fresh(buf)
    {
      used, free := 0, BLOCK_SIZE;
      buf := new char[BLOCK_SIZE];
    }

    /** memcpy of the next piece. */
    method Put(piece: string)
      requires Valid() && |piece| <= free
      modifies this, buf
      ensures Valid() && Bytes() == old(Bytes()) + piece && free == old(free) - |piece|
    {
      forall i | 0 <= i < |piece| { buf[used + i] := piece[i]; }
      used, free := used + |piece|, free - |piece|;
    }

    /** memmove after `n` bytes were sent. */
    method Drop(n: nat)
      requires Valid() && n <= used
      modifies this, buf
      ensures Valid() && Bytes() == old(Bytes())[n..] && free == old(free) && used == old(used) - n
    {
      forall i | 0 <= i < used - n { buf[i] := buf[i + n]; }
      used := used - n;
    }
  }

  /** The bytes of the blocks, in order. */
  ghost function Flat(pieces: seq<string>): string {
    if pieces == [] then "" else pieces[0] + Flat(pieces[1..])
  }

  lemma {:induction false} FlatAppend(pieces: seq<string>, last: string)
    ensures Flat(pieces + [last]) == Flat(pieces) + last
  {
    if pieces != [] {
      assert (pieces + [last])[1..] == pieces[1..] + [last];
      FlatAppend(pieces[1..], last);
      assert Flat(pieces + [last]) == pieces[0] + (Flat(pieces[1..]) + last);
    } else {
      assert [last][1..] == [];
    }
  }

  class RewriteBuffer {
    var blocks: seq<Block>
    var stopSendingDiff: bool

    ghost predicate Valid()
      reads this, blocks
    {
      && (forall i | 0 <= i < |blocks| :: blocks[i].Valid())
      && (forall i, j | 0 <= i < j < |blocks| :: blocks[i] != blocks[j] && blocks[i].buf != blocks[j].buf)
    }

    ghost function Bufs(): set<array<char>>
      reads this
    {
      set b | b in blocks :: b.buf
    }

    ghost function Pieces(): seq<string>
      reads this, blocks, Bufs()
    {
      seq(|blocks|, i requires 0 <= i < |blocks| reads this, blocks, Bufs() => blocks[i].Bytes())
    }

    /** Everything fed and not sent yet. */
    ghost function Contents(): string
      reads this, blocks, Bufs()
    {
      Flat(Pieces())
    }

    constructor ()
      ensures Valid() && Contents() == "" && !stopSendingDiff
    {
      blocks, stopSendingDiff := [], false;
    }

    /** One block's bytes changed. */
    lemma PieceChanged(before: seq<string>, i: nat)
      requires i < |blocks| && |before| == |blocks|
      requires forall k | 0 <= k < |blocks| && k != i :: blocks[k].Bytes() == before[k]
      ensures Pieces() == before[i := blocks[i].Bytes()]
    {
    }

    /** As much of `rest` as the last block has room for. */
    method FillLast(rest: string) returns (n: nat)
      requires Valid() && blocks != []
      modifies blocks[|blocks| - 1], blocks[|blocks| - 1].buf
      ensures Valid() && n <= |rest| && Contents() == old(Contents()) + rest[..n]
      ensures n < |rest| ==> blocks[|blocks| - 1].free == 0
      ensures old(blocks[|blocks| - 1].free) > 0 && rest != "" ==> n > 0
    {
      hide Flat;
      var block := blocks[|blocks| - 1];
      n := if block.free < |rest| then block.free else |rest|;
      ghost var before := Pieces();
      if n > 0 {
        block.Put(rest[..n]);
        PieceChanged(before, |blocks| - 1);
        LastGrows(before, rest[..n]);
      } else {
        assert rest[..0] == "";
      }
    }

    method AddBlock()
      requires Valid()
      modifies this`blocks
      ensures Valid() && Contents() == old(Contents())
      ensures exists b :: blocks == old(blocks) + [b] && fresh(b) && fresh(b.buf) && b.free == BLOCK_SIZE
    {
      hide Flat;
      ghost var before := Pieces();
      var block := new Block();
      blocks := blocks + [block];
      FlatAppend(before, "");
      assert Pieces() == before + [""];
    }

    /** aofRewriteBufferAppend */
    method Append(s: string)
      requires Valid()
      modifies this`blocks, blocks, Bufs()
      ensures Valid() && Contents() == old(Contents()) + s
    {
      hide Contents;
      var rest := s;
      while rest != ""
        invariant Valid() && Contents() + rest == old(Contents()) + s
        invariant forall b | b in blocks :: b in old(blocks) || fresh(b)
        invariant forall b | b in blocks :: b.buf in old(Bufs()) || fresh(b.buf)
        decreases |rest|, if blocks != [] then blocks[|blocks| - 1].free == 0 else true
      {
        if blocks != [] {
          ghost var had := Contents();
          assert blocks[|blocks| - 1] in blocks;
          var n := FillLast(rest);
          assert had + rest == had + rest[..n] + rest[n..];
          rest := rest[n..];
        }
        if rest != "" { AddBlock(); }
      }
    }

    lemma LastGrows(before: seq<string>, piece: string)
      requires before != []
      ensures Flat(before[|before| - 1 := before[|before| - 1] + piece]) == Flat(before) + piece
    {
      var front, last := before[..|before| - 1], before[|before| - 1];
      FlatAppend(front, last);
      FlatAppend(front, last + piece);
      assert before == front + [last];
      assert before[|before| - 1 := last + piece] == front + [last + piece];
    }

    /** The first block gave up its first `n` bytes. */
    method DropFirst(n: nat)
      requires Valid() && blocks != [] && n <= blocks[0].used
      modifies blocks[0], blocks[0].buf
      ensures Valid() && blocks[0].used == old(blocks[0].used) - n
      ensures old(Contents()) == old(blocks[0].Bytes()[..n]) + Contents()
    {
      hide Flat;
      ghost var before := Pieces();
      blocks[0].Drop(n);
      PieceChanged(before, 0);
      assert before[0] == before[0][..n] + before[0][n..];
      FirstShrinks(before, n);
    }

    lemma FirstShrinks(before: seq<string>, n: nat)
      requires before != [] && n <= |before[0]|
      ensures Flat(before) == before[0][..n] + Flat(before[0 := before[0][n..]])
    {
      assert before[0 := before[0][n..]][1..] == before[1..];
      assert before[0] == before[0][..n] + before[0][n..];
    }

    /** listDelNode on an emptied first block. */
    method RemoveFirst()
      requires Valid() && blocks != [] && blocks[0].used == 0
      modifies this`blocks
      ensures Valid() && Contents() == old(Contents()) && blocks == old(blocks)[1..]
    {
      ghost var before := Pieces();
      blocks := blocks[1..];
      assert Pieces() == before[1..];
    }

    /** No block and no block's array is a descriptor. */
    lemma Apart(d: Descriptor)
      ensures forall b: Block | b in blocks :: (b as object) != (d as object) && (b.buf as object) != (d as object)
      ensures forall b: array<char> | b in Bufs() :: (b as object) != (d as object)
    {
    }

    lemma Nothing()
      ensures blocks == [] ==> Contents() == ""
    {
    }

    /** aofChildWriteDiffData: whatever the pipe takes, no byte is lost or sent twice,
        after the child asked to stop none is sent, and before that all are unless the pipe
        is full. */
    method ChildWriteDiffData(pipe: Descriptor)
      requires Valid()
      modifies this`blocks, blocks, Bufs(), pipe
      ensures Valid()
      ensures AofRewrite.Sends(stopSendingDiff, old(Contents()), old(pipe.data), Contents(), pipe.data)
      ensures stopSendingDiff || Contents() == "" || pipe.blocked
    {
      hide Contents;
      while true
        invariant Valid() && pipe.data + Contents() == old(pipe.data + Contents())
        invariant old(pipe.data) <= pipe.data && (stopSendingDiff ==> pipe.data == old(pipe.data))
        invariant forall b | b in blocks :: b in old(blocks) && b.buf in old(Bufs())
        decreases |blocks|, if blocks != [] then blocks[0].used else 0
      {
        if stopSendingDiff || blocks == [] { Nothing(); return; }
        var block := blocks[0];
        if block.used > 0 {
          ghost var had, bytes := pipe.data, block.Bytes();
          Apart(pipe);
          var nwritten := pipe.Write(block.buf[..block.used]);
          assert nwritten <= 0 ==> pipe.data == had + "" == had;
          if nwritten <= 0 { return; }
          DropFirst(nwritten);
          assert had + (bytes[..nwritten] + Contents()) == had + bytes[..nwritten] + Contents();
        }
        if block.used == 0 { RemoveFirst(); }
      }
    }

    /** aofChildPipeReadable */
    method ChildPipeReadable(fromChild: Descriptor, toChild: Descriptor)
      requires fromChild != toChild
      modifies this`stopSendingDiff, fromChild, toChild
      ensures AofRewrite.Hears(old(stopSendingDiff), old(fromChild.data), old(toChild.data),
                               stopSendingDiff, fromChild.data, toChild.data)
    {
      var nread, bytes := fromChild.Read(1);
      if nread == 1 && bytes[0] == '!' {
        stopSendingDiff := true;
        var sent := toChild.Write("!");
        assert sent == 1 ==> "!"[..1] == "!";
      }
    }

    /** aofRewriteBufferSize */
    method Size() returns (size: nat)
      requires Valid()
      ensures size == |Contents()|
    {
      hide Flat;
      size := 0;
      FlatNone();
      for i := 0 to |blocks|
        invariant size == |Flat(Pieces()[..i])|
      {
        assert Pieces()[..i + 1] == Pieces()[..i] + [blocks[i].Bytes()];
        FlatAppend(Pieces()[..i], blocks[i].Bytes());
        size := size + blocks[i].used;
      }
      assert Pieces()[..|blocks|] == Pieces();
    }

    lemma FlatNone()
      ensures Flat([]) == ""
    {
    }

    /** aofRewriteBufferWrite: -1 after a short write or an error, else all bytes are in the
        file and their number is returned. */
    method Write(file: Descriptor) returns (count: int)
      requires Valid()
      modifies file
      ensures count == -1 || (count == |Contents()| && file.data == old(file.data) + Contents())
      ensures old(file.data) <= file.data
    {
      hide Flat;
      count := 0;
      FlatNone();
      for i := 0 to |blocks|
        invariant Valid() && Pieces() == old(Pieces())
        invariant count == |Flat(Pieces()[..i])| && file.data == old(file.data) + Flat(Pieces()[..i])
      {
        assert Pieces()[..i + 1] == Pieces()[..i] + [blocks[i].Bytes()];
        FlatAppend(Pieces()[..i], blocks[i].Bytes());
        if blocks[i].used > 0 {
          ghost var had := file.data;
          var bytes := blocks[i].buf[..blocks[i].used];
          var nwritten := file.Write(bytes);
          if nwritten != blocks[i].used { return -1; }
          assert bytes[..nwritten] == bytes;
          count := count + nwritten;
        }
      }
      assert Pieces()[..|blocks|] == Pieces();
    }

    /** backgroundRewriteDoneHandler, up to the rename; opening or renaming the file may
        fail. */
    method RewriteDone(success: bool, file: Descriptor, opens: bool, renames: bool) returns (outcome: AofRewrite.Outcome)
      requires Valid()
      modifies file
      ensures AofRewrite.Finishes(success, Contents(), old(file.data), outcome)
      ensures outcome.Renamed? ==> outcome.file == file.data
    {
      if !success || !opens { return AofRewrite.Discarded; }
      var count := Write(file);
      if count == -1 || !renames { return AofRewrite.Discarded; }
      return AofRewrite.Renamed(file.data);
    }
  }

  /** aofReadDiffFromParent: reads until the pipe is empty. */
  method ReadDiffFromParent(pipe: Descriptor, diff: string) returns (total: nat, childDiff: string)
    modifies pipe
    ensures pipe.data == "" && childDiff == diff + old(pipe.data) && total == |old(pipe.data)|
  {
    total, childDiff := 0, diff;
    var more := true;
    while more
      invariant childDiff + pipe.data == diff + old(pipe.data) && total + |pipe.data| == |old(pipe.data)|
      invariant !more ==> pipe.data == ""
      decreases more, |pipe.data|
    {
      var nread, bytes := pipe.Read(65536);
      if nread > 0 {
        assert childDiff + (bytes + pipe.data) == childDiff + bytes + pipe.data;
        childDiff, total := childDiff + bytes, total + nread;
      } else {
        more := false;
      }
    }
  }
}
