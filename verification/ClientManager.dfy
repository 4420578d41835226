/**
 The client manager: the registered clients, their tables of requests sent and not yet
 acknowledged, and the balancer, which must know exactly the registered clients.
 */
module ClientManager {
  import opened Delivery
  import opened Ids
  import opened Options
  import opened Runs

  datatype Request = Request(id: Id, payload: string)

  /** A connected worker. `closed` is set by whoever gives the connection up. */
  class Client {
    const id: Id
    var closed: bool

    constructor (id: Id)
      ensures this.id == id && !closed
    {
      this.id, closed := id, false;
    }

    /** `clean` says whether the connection itself closes without an error. */
    method Close(clean: bool) returns (ok: bool)
      modifies this
      ensures closed && ok == (old(closed) || clean)
    {
      ok := true;
      if !closed {
        closed := true;
        ok := clean;
      }
    }
  }

  /** A client's pending table. Whoever has looked it up can still use it when it is detached. */
  class PendingTable {
    var reqs: map<Id, Request>

    constructor ()
      ensures reqs == map[]
    {
      reqs := map[];
    }
  }

  lemma LessOne<T>(m: map<Id, T>, gone: set<Id>, id: Id)
    ensures m - gone - {id} == m - (gone + {id})
  {
  }

  /**
   The manager works with any balancer. `index` is what it sees of one: the ids of its
   nodes, with the requests in flight at each. Which node the balancer would return is
   a parameter.
   */
  class Manager {
    var clients: map<Id, Client>
    var pending: map<Id, PendingTable>
    var index: map<Id, int>

    ghost predicate Valid()
      reads this
    {
      && clients.Keys <= index.Keys
      && (forall id :: id in clients ==> clients[id].id == id)
      && (forall a, b :: a in pending && b in pending && a != b ==> pending[a] != pending[b])
    }

    /** The balancer has no node but those of registered clients. */
    ghost predicate Agrees()
      reads this
    {
      index.Keys == clients.Keys
    }

    constructor ()
      ensures Valid() && Agrees() && clients == map[] && pending == map[]
    {
      clients, pending, index := map[], map[], map[];
    }

    /** Ids of clients are fresh UUIDs. */
    method AddClient(client: Client)
      requires Valid() && client.id !in index
      modifies this
      ensures Valid() && (old(Agrees()) ==> Agrees())
      ensures clients == old(clients)[client.id := client]
      ensures client.id in pending && fresh(pending[client.id]) && pending[client.id].reqs == map[]
      ensures pending == old(pending)[client.id := pending[client.id]]
      ensures index == old(index)[client.id := 0]
    {
      clients := clients[client.id := client];
      var table := new PendingTable();
      pending := pending[client.id := table];
      index := index[client.id := 0];
    }

    /** A client that does not close cleanly the first time stays registered. */
    method RemoveClient(id: Id, clean: bool) returns (ok: bool)
      requires Valid()
      modifies this`clients, this`index, if id in clients then {clients[id]} else {}
      ensures Valid() && (old(Agrees()) ==> Agrees())
      ensures id !in old(clients) ==> !ok
      ensures id in old(clients) ==>
        old(clients)[id].closed && ok == (old(clients[id].closed) || clean)
      ensures clients == if ok then old(clients) - {id} else old(clients)
      ensures index == if ok then old(index) - {id} else old(index)
    {
      if id !in clients {
        return false;
      }
      ok := clients[id].Close(clean);
      if ok {
        clients := clients - {id};
        index := index - {id};
      }
    }

    /** One try, on the node the balancer returns. */
    method TryClient(node: Id) returns (got: Option<Client>)
      requires Valid() && node in index
      modifies this`clients, this`index, clients.Values
      ensures Valid() && (old(Agrees()) ==> Agrees())
      ensures forall c :: c in old(clients).Values ==> c.closed == old(c.closed)
      ensures got.Some? <==> node in old(clients) && !old(clients[node].closed)
      ensures got.Some? ==> got.value == old(clients)[node] && got.value.id == node && !got.value.closed
      ensures clients == if got.Some? then old(clients) else old(clients) - {node}
      ensures index == if got.Some? then old(index)[node := old(index)[node] + 1] else old(index) - {node}
    {
      got := None;
      index := index[node := index[node] + 1];
      if node !in clients {
        index := index - {node};
      } else {
        var client := clients[node];
        if !client.closed {
          got := Some(client);
        } else {
          var _ := RemoveClient(client.id, true);
        }
      }
    }

    /**
     Up to three tries. The tries that failed evicted one node each, all of them closed
     or unregistered; the client returned is registered and not closed, and its node
     alone has a request more. `choice` says which node the balancer returns.
     */
    method GetClientByBalance(choice: (nat, set<Id>) -> Id) returns (got: Option<Client>, ghost evicted: set<Id>)
      requires Valid()
      requires forall k: nat, ids: set<Id> :: ids != {} ==> choice(k, ids) in ids
      modifies this`clients, this`index, clients.Values
      ensures Valid() && (old(Agrees()) ==> Agrees())
      ensures forall c :: c in old(clients).Values ==> c.closed == old(c.closed)
      ensures forall id :: id in evicted ==> id in old(index) && (id in old(clients) ==> old(clients[id].closed))
      ensures clients == old(clients) - evicted && |evicted| <= MAX_RETRY_PICK_CLIENT
      ensures got.Some? ==> got.value.id in clients && clients[got.value.id] == got.value && !got.value.closed
      ensures got.Some? ==> |evicted| < MAX_RETRY_PICK_CLIENT && got.value.id in old(index) - evicted
      ensures got.Some? ==> index == (old(index) - evicted)[got.value.id := old(index)[got.value.id] + 1]
      ensures got.None? ==> index == old(index) - evicted && (index == map[] || |evicted| == MAX_RETRY_PICK_CLIENT)
    {
      var i := 0;
      got, evicted := None, {};
      while i < MAX_RETRY_PICK_CLIENT
        invariant Valid() && (old(Agrees()) ==> Agrees())
        invariant got.None? && i == |evicted| <= MAX_RETRY_PICK_CLIENT
        invariant forall c :: c in old(clients).Values ==> c.closed == old(c.closed)
        invariant forall id :: id in evicted ==> id in old(index) && (id in old(clients) ==> old(clients[id].closed))
        invariant clients == old(clients) - evicted && index == old(index) - evicted
      {
        if index.Keys == {} {
          return;
        }
        var node := choice(i, index.Keys);
        got := TryClient(node);
        if got.Some? {
          return;
        }
        LessOne(old(clients), evicted, node);
        LessOne(old(index), evicted, node);
        evicted := evicted + {node};
        i := i + 1;
      }
    }

    /** An answer for a node that is gone changes nothing. */
    method Done(id: Id)
      requires Valid()
      modifies this`index
      ensures Valid() && (old(Agrees()) ==> Agrees())
      ensures index == if id in old(index) then old(index)[id := old(index)[id] - 1] else old(index)
    {
      if id in index {
        index := index[id := index[id] - 1];
      }
    }

    /** For a client whose table is detached, or who never had one, nothing is recorded. */
    method TrackRequest(client: Id, req: Request)
      requires Valid()
      modifies if client in pending then {pending[client]} else {}
      ensures client in pending ==> pending[client].reqs == old(pending[client].reqs)[req.id := req]
    {
      if client !in pending {
        return;
      }
      var table := pending[client];
      table.reqs := table.reqs[req.id := req];
    }

    method AcknowledgeRequest(client: Id, req: Id)
      requires Valid()
      modifies if client in pending then {pending[client]} else {}
      ensures client in pending ==> pending[client].reqs == old(pending[client].reqs) - {req}
    {
      if client !in pending {
        return;
      }
      var table := pending[client];
      table.reqs := table.reqs - {req};
    }

    /** Each request of the client's table once, in some order; the client has no table afterwards. */
    method DrainPending(client: Id) returns (result: seq<Request>, ghost order: seq<Id>)
      requires Valid()
      modifies this`pending
      ensures Valid() && pending == old(pending) - {client}
      ensures client !in old(pending) ==> result == []
      ensures client in old(pending) ==>
        var reqs := old(pending[client].reqs);
        && IsListOf(order, reqs.Keys) && |result| == |order|
        && forall i :: 0 <= i < |result| ==> result[i] == reqs[order[i]]
    {
      result, order := [], [];
      if client !in pending {
        return;
      }
      var table := pending[client];
      pending := pending - {client};
      var reqs := table.reqs;
      var left := reqs.Keys;
      while left != {}
        invariant left <= reqs.Keys && IsListOf(order, reqs.Keys - left) && |result| == |order|
        invariant forall i :: 0 <= i < |result| ==> result[i] == reqs[order[i]]
        decreases left
      {
        var id :| id in left;
        result, order := result + [reqs[id]], order + [id];
        left := left - {id};
      }
    }
  }
}
