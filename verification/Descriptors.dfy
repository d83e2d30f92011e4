/**
 The descriptor table of code/fd_manager.cpp and the hooked F_SETFL and F_GETFL of code/hook.cpp: a
 growing sparse table seen as a map, and the flags the program sees against those the kernel has. Of the
 flags only O_NONBLOCK matters; `others` stands for the rest. The kernel is the map from open
 descriptors to their flags.
 */
module Descriptors {
  datatype Flags = Flags(nonblock: bool, others: nat)

  class FdCtx {
    const socket: bool
    const sysNonblock: bool
    var userNonblock: bool

    constructor (socket: bool)
      ensures this.socket == socket && sysNonblock == socket && !userNonblock
    {
      this.socket, sysNonblock, userNonblock := socket, socket, false;
    }
  }

  class FdManager {
    var datas: seq<FdCtx?>
    var kernel: map<nat, Flags>

    constructor (kernel: map<nat, Flags>)
      ensures Valid() && Table() == map[] && this.kernel == kernel
    {
      this.kernel := kernel;
      datas := seq(64, i => null);
    }

    /** The table as a map. */
    function Table(): map<nat, FdCtx>
      reads this
    {
      map fd: nat | fd < |datas| && datas[fd] != null :: datas[fd]
    }

    /**
     The table never shrinks below 64, contexts are not shared, and tracked open sockets are non-blocking
     for the kernel.
     */
    ghost predicate Valid()
      reads this, datas
    {
      && |datas| >= 64
      && (forall i, j | 0 <= i < j < |datas| && datas[i] != null :: datas[i] != datas[j])
      && (forall fd: nat | fd in Table() && fd in kernel && Table()[fd].socket :: kernel[fd].nonblock)
      && (forall fd: nat | fd in Table() :: Table()[fd].sysNonblock == Table()[fd].socket)
    }

    /** The flags a program is to see. */
    function UserFlags(fd: nat): Flags
      requires fd in kernel
      reads this, datas
    {
      if fd in Table() && Table()[fd].socket then kernel[fd].(nonblock := Table()[fd].userNonblock) else kernel[fd]
    }

    /** `get`; a new context reads the file type, and makes a socket non-blocking. */
    method Get(fd: int, autoCreate: bool, isSocket: bool) returns (ctx: FdCtx?)
      requires Valid() && fd >= -1
      modifies this
      ensures Valid()
      ensures ctx == null <==> fd == -1 || (fd !in old(Table()) && !autoCreate)
      ensures ctx != null && fd in old(Table()) ==> ctx == old(Table())[fd]
      ensures ctx != null && fd !in old(Table()) ==> fresh(ctx) && ctx.socket == isSocket && !ctx.userNonblock
      ensures Table() == if ctx == null then old(Table()) else old(Table())[fd := ctx]
      ensures kernel == if ctx != null && fd !in old(Table()) && isSocket && fd in old(kernel)
                        then old(kernel)[fd := old(kernel)[fd].(nonblock := true)] else old(kernel)
    {
      if fd == -1 { return null; }
      if |datas| <= fd {
        if !autoCreate { return null; }
      } else if datas[fd] != null || !autoCreate {
        return datas[fd];
      }
      Grow(fd);
      ctx := new FdCtx(isSocket);
      // a new context makes a socket non-blocking for the kernel
      if isSocket && fd in kernel && !kernel[fd].nonblock {
        kernel := kernel[fd := kernel[fd].(nonblock := true)];
      }
      Enter(fd, ctx);
    }

    method Enter(fd: nat, ctx: FdCtx)
      requires Valid() && fd < |datas| && ctx !in datas && ctx.sysNonblock == ctx.socket
      requires fd in kernel && ctx.socket ==> kernel[fd].nonblock
      modifies this`datas
      ensures Valid() && Table() == old(Table())[fd := ctx]
    {
      datas := datas[fd := ctx];
      assert forall i | 0 <= i < |datas| && i != fd :: datas[i] == old(datas)[i];
      assert forall other: nat | other in Table() && other != fd ::
            other in old(Table()) && Table()[other] == old(Table())[other];
    }

    /** One and a half times a descriptor beyond the table is above it because the table has at least 64 entries. */
    method Grow(fd: nat)
      requires Valid()
      modifies this`datas
      ensures Valid() && |datas| > fd && Table() == old(Table())
      ensures forall x: FdCtx? | x in datas && x != null :: x in old(datas)
    {
      if |datas| <= fd {
        datas := datas + seq(fd * 3 / 2 - |datas|, i => null);
        assert forall i | 0 <= i < |old(datas)| :: datas[i] == old(datas)[i];
        assert forall i | 0 <= i < |datas| && datas[i] != null :: i < |old(datas)| && datas[i] == old(datas[i]);
        assert Table() == old(Table());
      }
    }

    method Del(fd: nat)
      requires Valid()
      modifies this`datas
      ensures Valid() && Table() == old(Table()) - {fd}
    {
      if |datas| <= fd { return; }
      datas := datas[fd := null];
      assert forall i | 0 <= i < |datas| && i != fd :: datas[i] == old(datas[i]);
      assert forall other: nat | other in Table() :: other in old(Table()) && Table()[other] == old(Table())[other];
    }

    /** fcntl F_SETFL: the program then sees what it set, on this descriptor only, and sockets stay non-blocking. */
    method SetFlags(fd: nat, arg: Flags)
      requires Valid() && fd in kernel
      modifies this`kernel, datas
      ensures Valid() && Table() == old(Table()) && kernel.Keys == old(kernel).Keys
      ensures UserFlags(fd) == arg
      ensures forall other: nat | other in kernel && other != fd :: UserFlags(other) == old(UserFlags(other))
    {
      var ctx := if fd < |datas| then datas[fd] else null;
      if ctx == null || !ctx.socket {
        kernel := kernel[fd := arg];
        return;
      }
      ctx.userNonblock := arg.nonblock;
      kernel := kernel[fd := arg.(nonblock := ctx.sysNonblock)];
    }

    /** fcntl F_GETFL. */
    method GetFlags(fd: nat) returns (r: Flags)
      requires Valid() && fd in kernel
      ensures r == UserFlags(fd)
    {
      r := kernel[fd];
      var ctx := if fd < |datas| then datas[fd] else null;
      if ctx == null || !ctx.socket { return; }
      r := r.(nonblock := ctx.userNonblock);
    }
  }
}
