/** The relay's process-wide presence list `onlineUsers`: a sequence of
    `{ id, username }` entries in registration order. */
module Presence {
  import opened Protocol

  /** The number of entries that belong to socket `id`. */
  function Count(online: seq<User>, id: SocketId): nat
  {
    if online == [] then 0
    else (if online[0].id == id then 1 else 0) + Count(online[1..], id)
  }

  /** Some entry belongs to socket `id`: `onlineUsers.find(u => u.id === id)`
      finds an entry. */
  predicate Present(online: seq<User>, id: SocketId)
  {
    Count(online, id) > 0
  }

  /** `find` succeeds exactly when some index holds an entry of the socket. */
  lemma {:induction false} PresentIffSomeEntry(online: seq<User>, id: SocketId)
    ensures Present(online, id) <==> exists i :: 0 <= i < |online| && online[i].id == id
  {
    if online != [] {
      PresentIffSomeEntry(online[1..], id);
      if Present(online[1..], id) {
        var i :| 0 <= i < |online| - 1 && online[1..][i].id == id;
        assert online[i + 1] == online[1..][i];
      }
      if exists i :: 0 <= i < |online| && online[i].id == id {
        var i :| 0 <= i < |online| && online[i].id == id;
        if i > 0 {
          assert online[1..][i - 1] == online[i];
        }
      }
    }
  }

  /** No socket has more than one entry. */
  ghost predicate Unique(online: seq<User>)
  {
    forall id :: Count(online, id) <= 1
  }

  /** `onlineUsers.push({ id, username })`: one entry at the end, every
      earlier entry left where it was, and no check for an earlier entry of
      the same socket. */
  function Register(online: seq<User>, id: SocketId, name: string): (r: seq<User>)
    ensures |r| == |online| + 1 && r[..|online|] == online
    ensures r[|online|] == User(id, name)
  {
    online + [User(id, name)]
  }

  /** `onlineUsers.filter(u => u.id !== id)`. */
  function Remove(online: seq<User>, id: SocketId): seq<User>
  {
    if online == [] then []
    else if online[0].id == id then Remove(online[1..], id)
    else [online[0]] + Remove(online[1..], id)
  }

  /** Removal drops every entry of the socket and no entry of any other
      socket. */
  lemma {:induction false} RemoveCounts(online: seq<User>, id: SocketId, other: SocketId)
    ensures Count(Remove(online, id), id) == 0
    ensures other != id ==> Count(Remove(online, id), other) == Count(online, other)
    ensures |Remove(online, id)| == |online| - Count(online, id)
  {
    if online != [] {
      RemoveCounts(online[1..], id, other);
      if online[0].id != id {
        assert ([online[0]] + Remove(online[1..], id))[1..] == Remove(online[1..], id);
      }
    }
  }

  /** The entries that survive removal are exactly those of other sockets. */
  lemma {:induction false} RemoveMembers(online: seq<User>, id: SocketId, u: User)
    ensures u in Remove(online, id) <==> u in online && u.id != id
  {
    if online != [] {
      RemoveMembers(online[1..], id, u);
      assert online == [online[0]] + online[1..];
      assert u in online <==> u == online[0] || u in online[1..];
    }
  }

  lemma {:induction false} CountAppend(a: seq<User>, b: seq<User>, id: SocketId)
    ensures Count(a + b, id) == Count(a, id) + Count(b, id)
    decreases |a|
  {
    if a == [] {
      assert a + b == b;
    } else {
      assert (a + b)[1..] == a[1..] + b;
      CountAppend(a[1..], b, id);
    }
  }

  /** Registering adds exactly one entry for the registering socket, whether
      or not it already had one, and leaves every other socket's entries
      alone. */
  lemma RegisterCounts(online: seq<User>, id: SocketId, name: string, other: SocketId)
    ensures Count(Register(online, id, name), id) == Count(online, id) + 1
    ensures other != id ==> Count(Register(online, id, name), other) == Count(online, other)
  {
    CountAppend(online, [User(id, name)], id);
    CountAppend(online, [User(id, name)], other);
    assert [User(id, name)][1..] == [];
  }

  /** Removal works entry by entry: it commutes with concatenation, so the
      surviving entries keep their original relative order. */
  lemma {:induction false} RemoveDistributes(a: seq<User>, b: seq<User>, id: SocketId)
    ensures Remove(a + b, id) == Remove(a, id) + Remove(b, id)
    decreases |a|
  {
    if a == [] {
      assert a + b == b;
    } else {
      assert (a + b)[1..] == a[1..] + b;
      assert (a + b)[0] == a[0];
      RemoveDistributes(a[1..], b, id);
    }
  }

  /** Removal of a single entry: kept exactly when it belongs to another socket. */
  lemma RemoveSingle(u: User, id: SocketId)
    ensures Remove([u], id) == if u.id == id then [] else [u]
  {
  }

  /** Removing a socket that has no entry changes nothing. */
  lemma {:induction false} RemoveAbsent(online: seq<User>, id: SocketId)
    requires !Present(online, id)
    ensures Remove(online, id) == online
  {
    if online != [] {
      RemoveAbsent(online[1..], id);
      assert online == [online[0]] + online[1..];
    }
  }

  /** Registering a socket with no entry yet keeps the list free of duplicates. */
  lemma RegisterFreshKeepsUnique(online: seq<User>, id: SocketId, name: string)
    requires Unique(online) && !Present(online, id)
    ensures Unique(Register(online, id, name))
  {
    forall other
      ensures Count(Register(online, id, name), other) <= 1
    {
      RegisterCounts(online, id, name, other);
    }
  }

  /** Registering the same socket twice leaves two more entries for it: the
      list is no longer duplicate-free. */
  lemma RegisterTwiceDuplicates(online: seq<User>, id: SocketId, first: string, second: string)
    ensures Count(Register(Register(online, id, first), id, second), id) == Count(online, id) + 2
    ensures !Unique(Register(Register(online, id, first), id, second))
  {
    RegisterCounts(online, id, first, id);
    RegisterCounts(Register(online, id, first), id, second, id);
  }

  /** Removal keeps a duplicate-free list duplicate-free. */
  lemma RemoveKeepsUnique(online: seq<User>, id: SocketId)
    requires Unique(online)
    ensures Unique(Remove(online, id))
  {
    forall other
      ensures Count(Remove(online, id), other) <= 1
    {
      RemoveCounts(online, id, other);
    }
  }
}
