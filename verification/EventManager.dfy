/** The event manager: the connection table of the leader, fed by the hooks on
    accept, read and close, and the connection table of a replica, fed by replay. */
module EventManager {
  import opened Bytes
  import opened ViewStamps
  import opened EntryLayout
  import opened Consensus
  import opened LogThreads
  import opened Replay

  // --------------------------------------------------------------- at the leader

  /** Some descriptor of the table stands for connection `vs`. */
  ghost predicate Names(m: map<int, ViewStamp>, vs: ViewStamp)
  {
    exists f :: f in m && m[f] == vs
  }

  /** The leader's side of the event manager, over the requests it has reserved. */
  class LeaderEvents {
    const log: DareLog
    var tcpMap: map<int, ViewStamp>
    var reqs: seq<Request>

    /** Requests are disciplined, and the table maps descriptors one to one to the
        connections that are open once all requests are replayed. */
    ghost predicate Valid()
      reads this
    {
      && Disciplined(reqs)
      && |reqs| < U32 - 1
      && (forall f, g :: f in tcpMap && g in tcpMap && f != g ==> tcpMap[f] != tcpMap[g])
      && (forall vs :: vs in Connects(reqs, |reqs|) && vs !in Closes(reqs, |reqs|) <==> Names(tcpMap, vs))
    }

    constructor ()
      ensures Valid() && tcpMap == map[] && reqs == [] && fresh(log)
      ensures log.end == log.tail == LOG_SIZE
    {
      tcpMap, reqs := map[], [];
      log := new DareLog();
    }

    /** The reservation inside `rsm_op`: the request is appended under the next
        view stamp; a connect is keyed by that stamp, a NOP by none. */
    method RsmOp(kind: byte, clt: ViewStamp, data: seq<byte>, prev: nat) returns (stamp: ViewStamp)
      modifies this`reqs, log
      ensures stamp == StampOf(|old(reqs)|)
      ensures |reqs| == |old(reqs)| + 1 && reqs[..|old(reqs)|] == old(reqs)
      ensures var q := reqs[|old(reqs)|];
              && q.kind == kind && q.data == data && q.prev == prev
              && q.clt == (if kind == P_TCP_CONNECT then stamp else if kind == P_NOP then ViewStamp(0, 0) else clt)
              && q.tail == log.tail && log.end == log.tail + EntryLen(|data| + 1)
    {
      stamp := StampOf(|reqs|);
      var id := if kind == P_TCP_CONNECT then stamp else if kind == P_NOP then ViewStamp(0, 0) else clt;
      var at, tail := log.AddEntry(|data| + 1);
      reqs := reqs + [Request(kind, id, data, prev, at, tail)];
    }

    /** `mgr_on_accept` at the leader.  The kernel gives out a descriptor again only
        after it was closed, and closing removes it from the table. */
    method OnAccept(fd: int)
      requires Valid() && fd !in tcpMap && |reqs| < U32 - 2
      modifies this, log
      ensures Valid()
      ensures tcpMap == old(tcpMap)[fd := StampOf(|old(reqs)|)]
      ensures |reqs| == |old(reqs)| + 1 && reqs[..|old(reqs)|] == old(reqs)
      ensures reqs[|old(reqs)|].kind == P_TCP_CONNECT && reqs[|old(reqs)|].clt == StampOf(|old(reqs)|)
      ensures reqs[|old(reqs)|].data == [] && reqs[|old(reqs)|].prev == 0
    {
      ghost var before, n := reqs, |reqs|;
      var stamp := RsmOp(P_TCP_CONNECT, ViewStamp(0, 0), [], 0);
      tcpMap := tcpMap[fd := stamp];
      ghost var q := reqs[n];
      assert reqs == before + [q];
      DisciplinedNext(before, q);
      ConnectionsNext(before, q);
      FreshStamp(reqs, seq(n, _ => 0), n, n);
      assert Connects(reqs, n) == Connects(before, n) && Closes(reqs, n) == Closes(before, n);
      forall vs ensures Names(tcpMap, vs) <==> Names(old(tcpMap), vs) || vs == stamp {
        if vs == stamp { assert tcpMap[fd] == vs; }
        if Names(old(tcpMap), vs) {
          var f :| f in old(tcpMap) && old(tcpMap)[f] == vs;
          assert tcpMap[f] == vs;
        }
      }
      forall f | f in old(tcpMap) ensures old(tcpMap)[f] != stamp { assert Names(old(tcpMap), old(tcpMap)[f]); }
    }

    /** `server_side_on_read`: the bytes read are submitted under the connection's
        stamp.  A descriptor that is not in the table has no stamp to submit. */
    method OnRead(fd: int, data: seq<byte>) returns (ok: bool)
      requires Valid() && |reqs| < U32 - 2
      modifies this, log
      ensures Valid() && tcpMap == old(tcpMap)
      ensures ok <==> fd in tcpMap
      ensures !ok ==> reqs == old(reqs)
      ensures ok ==> && |reqs| == |old(reqs)| + 1 && reqs[..|old(reqs)|] == old(reqs)
                     && reqs[|old(reqs)|].kind == P_SEND && reqs[|old(reqs)|].data == data
                     && reqs[|old(reqs)|].clt == tcpMap[fd]
    {
      ok := fd in tcpMap;
      if ok {
        ghost var before, n := reqs, |reqs|;
        assert Names(tcpMap, tcpMap[fd]);
        var stamp := RsmOp(P_SEND, tcpMap[fd], data, 0);
        assert reqs == before + [reqs[n]];
        DisciplinedNext(before, reqs[n]);
        ConnectionsNext(before, reqs[n]);
      }
    }

    /** `mgr_on_close` at the leader: a known descriptor leaves the table and a
        CLOSE is submitted, followed by the NOP that carries it through. */
    method OnClose(fd: int)
      requires Valid() && |reqs| < U32 - 3
      modifies this, log
      ensures Valid()
      ensures tcpMap == old(tcpMap) - {fd}
      ensures fd !in old(tcpMap) ==> reqs == old(reqs)
      ensures fd in old(tcpMap) ==>
                && |reqs| == |old(reqs)| + 2 && reqs[..|old(reqs)|] == old(reqs)
                && reqs[|old(reqs)|].kind == P_CLOSE && reqs[|old(reqs)|].clt == old(tcpMap)[fd]
                && reqs[|old(reqs)|].data == [] && reqs[|old(reqs)| + 1].data == []
                && reqs[|old(reqs)| + 1].kind == P_NOP && reqs[|old(reqs)| + 1].prev == |old(reqs)| + 1
    {
      hide Disciplined, Connects, Closes, Names, IsConnect;
      if fd in tcpMap {
        ghost var before := reqs;
        var n, vs := |reqs|, tcpMap[fd];
        NamesIt(tcpMap, fd);
        OpenIsConnect(reqs, vs);
        tcpMap := tcpMap - {fd};
        var stamp := RsmOp(P_CLOSE, vs, [], 0);
        ghost var mid := reqs;
        assert mid == before + [mid[n]];
        DisciplinedNext(before, mid[n]);
        ConnectionsNext(before, mid[n]);
        stamp := RsmOp(P_NOP, ViewStamp(0, 0), [], n + 1);
        assert reqs == mid + [reqs[n + 1]];
        DisciplinedNext(mid, reqs[n + 1]);
        ConnectionsNext(mid, reqs[n + 1]);
        RemoveValue(old(tcpMap), fd);
      }
    }
  }

  lemma NamesIt(m: map<int, ViewStamp>, fd: int)
    requires fd in m
    ensures Names(m, m[fd])
  {
  }

  /** Dropping a descriptor from a one-to-one table drops exactly its stamp. */
  lemma RemoveValue(m: map<int, ViewStamp>, fd: int)
    requires fd in m
    requires forall f, g :: f in m && g in m && f != g ==> m[f] != m[g]
    ensures forall vs :: Names(m - {fd}, vs) <==> Names(m, vs) && vs != m[fd]
  {
    var m' := m - {fd};
    forall vs ensures Names(m', vs) <==> Names(m, vs) && vs != m[fd] {
      if Names(m', vs) {
        var f :| f in m' && m'[f] == vs;
        assert m[f] == vs;
      }
      if Names(m, vs) && vs != m[fd] {
        var f :| f in m && m[f] == vs;
        assert m'[f] == vs;
      }
    }
  }

  // --------------------------------------------------------------- at a replica

  /** `p_s` is the replica's socket to its local server, `s_p` the server's end. */
  datatype TcpPair = TcpPair(p_s: int, s_p: int, accepted: bool)

  class ReplicaEvents {
    var tcpMap: map<ViewStamp, TcpPair>
    var curRec: nat
    ghost var sent: map<ViewStamp, seq<byte>>

    ghost predicate Valid()
      reads this
    {
      && tcpMap.Keys <= sent.Keys
      && forall vs :: vs in tcpMap ==> tcpMap[vs].accepted
    }

    /** Open connections, and what was written on each. */
    ghost function View(): (s: Sessions)
      reads this
    {
      Sessions(tcpMap.Keys, sent)
    }

    constructor ()
      ensures Valid() && View() == NO_SESSIONS
    {
      tcpMap, curRec, sent := map[], 0, map[];
    }

    /** `do_action_tcp_connect`, up to the point where the server's accept hook has
        filled in its end; `pS` and `sP` are the two descriptors. */
    method Connect(clt: ViewStamp, pS: int, sP: int)
      requires Valid()
      modifies this`tcpMap, this`sent
      ensures Valid() && tcpMap == old(tcpMap)[clt := TcpPair(pS, sP, true)]
      ensures View() == Sessions(old(View()).open + {clt}, if clt in old(sent) then old(sent) else old(sent)[clt := []])
    {
      if clt !in tcpMap {
        tcpMap := tcpMap[clt := TcpPair(0, 0, false)];
      }
      tcpMap := tcpMap[clt := tcpMap[clt].(p_s := pS)];
      tcpMap := tcpMap[clt := tcpMap[clt].(s_p := sP, accepted := true)];
      sent := if clt in sent then sent else sent[clt := []];
    }

    /** `do_action_send`: write the payload if the connection is known.  The socket is
        non-blocking and takes `took` bytes, and the result of `write` is ignored. */
    method Send(r: Record, took: nat)
      requires Valid()
      modifies this`sent
      ensures Valid()
      ensures View() ==
                if r.clt in tcpMap
                then old(View()).(sent := old(sent)[r.clt := old(sent)[r.clt] + Taken(r.payload, took)])
                else old(View())
    {
      if r.clt in tcpMap {
        sent := sent[r.clt := sent[r.clt] + Taken(r.payload, took)];
      }
    }

    /** `get_mapping_fd`, which takes the connection to be known: the server's end. */
    method MappingFd(clt: ViewStamp) returns (fd: int)
      requires Valid() && clt in tcpMap
      ensures fd == tcpMap[clt].s_p
    {
      fd := tcpMap[clt].s_p;
    }

    /** `do_action_close` */
    method Close(clt: ViewStamp)
      requires Valid()
      modifies this`tcpMap
      ensures Valid() && tcpMap == old(tcpMap) - {clt}
      ensures View() == old(View()).(open := old(View()).open - {clt})
    {
      if clt in tcpMap {
        tcpMap := tcpMap - {clt};
      }
    }

    /** `update_state`: fetch the record of `index` and act on its type.  Without a
        record there is nothing to act on. */
    method UpdateState(db: map<nat, seq<byte>>, index: nat, pS: int, sP: int, took: nat) returns (ok: bool)
      requires Valid()
      modifies this
      ensures Valid() && curRec == index
      ensures ok <==> index in db && |db[index]| >= RECORD_HEADER
      ensures ok ==> View() == Replayed(old(View()), DecodeRecord(db[index]), took)
      ensures !ok ==> View() == old(View())
      ensures ok && DecodeRecord(db[index]).kind == P_TCP_CONNECT ==>
                tcpMap == old(tcpMap)[DecodeRecord(db[index]).clt := TcpPair(pS, sP, true)]
      ensures ok && DecodeRecord(db[index]).kind == P_CLOSE ==> tcpMap == old(tcpMap) - {DecodeRecord(db[index]).clt}
      ensures !ok || DecodeRecord(db[index]).kind !in {P_TCP_CONNECT, P_CLOSE} ==> tcpMap == old(tcpMap)
    {
      curRec := index;
      ok := index in db && |db[index]| >= RECORD_HEADER;
      if ok {
        var r := DecodeRecord(db[index]);
        if r.kind == P_TCP_CONNECT {
          Connect(r.clt, pS, sP);
        } else if r.kind == P_SEND {
          Send(r, took);
        } else if r.kind == P_CLOSE {
          Close(r.clt);
        }
      }
    }
  }
}
