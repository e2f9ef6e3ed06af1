/**
 The client-go work queue, taken by its contract: a set of keys to process, a set being processed,
 and keys waiting out a rate limit. A key is never handed to two workers at once.
 */
module WorkQueue {
  datatype Queue = Queue(items: seq<string>, dirty: set<string>, processing: set<string>, delayed: set<string>)

  const EMPTY := Queue([], {}, {}, {})

  function Add(q: Queue, key: string): Queue {
    if key in q.dirty then q
    else if key in q.processing then q.(dirty := q.dirty + {key})
    else q.(dirty := q.dirty + {key}, items := q.items + [key])
  }

  function AddAll(q: Queue, keys: seq<string>): Queue {
    if keys == [] then q else Add(AddAll(q, keys[..|keys| - 1]), keys[|keys| - 1])
  }

  function Get(q: Queue): Queue
    requires q.items != []
  {
    Queue(q.items[1..], q.dirty - {q.items[0]}, q.processing + {q.items[0]}, q.delayed)
  }

  function Done(q: Queue, key: string): Queue {
    var q := q.(processing := q.processing - {key});
    if key in q.dirty then q.(items := q.items + [key]) else q
  }

  function AddRateLimited(q: Queue, key: string): Queue {
    q.(delayed := q.delayed + {key})
  }

  function Elapse(q: Queue, key: string): Queue {
    Add(q.(delayed := q.delayed - {key}), key)
  }

  /** The items are the dirty keys that no worker holds, each once. */
  ghost predicate Consistent(q: Queue) {
    && (forall key :: key in q.items <==> key in q.dirty && key !in q.processing)
    && (forall i, j :: 0 <= i < j < |q.items| ==> q.items[i] != q.items[j])
  }

  lemma AddConsistent(q: Queue, key: string)
    requires Consistent(q)
    ensures Consistent(Add(q, key)) && key in Add(q, key).dirty && q.items <= Add(q, key).items
  {
  }

  lemma {:induction false} AddAllConsistent(q: Queue, keys: seq<string>)
    requires Consistent(q)
    ensures Consistent(AddAll(q, keys))
    ensures AddAll(q, keys).dirty == q.dirty + (set key | key in keys)
    ensures AddAll(q, keys).processing == q.processing && AddAll(q, keys).delayed == q.delayed
    ensures q.items <= AddAll(q, keys).items
  {
    if keys != [] {
      var last := keys[|keys| - 1];
      AddAllConsistent(q, keys[..|keys| - 1]);
      AddConsistent(AddAll(q, keys[..|keys| - 1]), last);
      assert keys == keys[..|keys| - 1] + [last];
    }
  }

  lemma GetConsistent(q: Queue)
    requires Consistent(q) && q.items != []
    ensures Consistent(Get(q)) && q.items[0] !in q.processing
  {
    assert q.items[0] in q.items;
    forall key ensures key in q.items[1..] <==> key in Get(q).dirty && key !in Get(q).processing {
      if key in q.items && key != q.items[0] {
        var i :| 0 <= i < |q.items| && q.items[i] == key;
        assert q.items[1..][i - 1] == key;
      }
    }
  }

  lemma DoneConsistent(q: Queue, key: string)
    requires Consistent(q) && key in q.processing
    ensures Consistent(Done(q, key))
  {
  }
}
