/** The quiz repository (Data/QuizRepository.cs) over the "quizzes"
    collection. The collection is a map from document id to record; each
    operation is first given as a pure transition of that map, and the class
    QuizRepository performs the same transitions in place. */
module Data {
  import opened Wrappers
  import opened Models

  /** The collection: records keyed by their `_id`. */
  type Store = map<string, Quiz>

  /** The store refuses an insert whose id is already taken. */
  datatype StoreError = DuplicateKey(id: string)

  /** What one store operation returns, together with the collection after it. */
  datatype Step<T> = Step(result: T, store: Store)

  /** Every record is filed under its own id. */
  predicate WellKeyed(s: Store) {
    forall k :: k in s ==> s[k].id == Some(k)
  }

  /** `Find(q => q.Id == id).FirstOrDefault()`: the stored record whose id is
      `id`, or null. */
  function Lookup(s: Store, id: string): (r: Option<Quiz>)
    ensures WellKeyed(s) ==> (r.Some? <==> exists k :: k in s && s[k].id == Some(id))
    ensures WellKeyed(s) && r.Some? ==> r.value.id == Some(id)
    ensures r.Some? ==> r.value in s.Values
    ensures WellKeyed(s) && r.Some? ==> exists k :: k in s && s[k].id == Some(id) && r.value == s[k]
  {
    if id in s then Some(s[id]) else None
  }

  /** `InsertOneAsync`: a quiz without an id gets the id the driver
      generated; the stored quiz (with its id set) is returned. */
  function Insert(s: Store, quiz: Quiz, generatedId: string): (r: Step<Result<Quiz, StoreError>>)
    ensures var key := quiz.id.GetOr(generatedId);
      && (r.result.Failure? <==> key in s)
      && (r.result.Failure? ==> r.store == s && r.result.error == DuplicateKey(key))
      && (r.result.Success? ==>
            && r.result.value == quiz.(id := Some(key))
            && Lookup(r.store, key) == Some(r.result.value))
      && (forall k :: k != key ==> Lookup(r.store, k) == Lookup(s, k))
    ensures WellKeyed(s) ==> WellKeyed(r.store)
  {
    var key := quiz.id.GetOr(generatedId);
    if key in s then Step(Failure(DuplicateKey(key)), s)
    else
      var created := quiz.(id := Some(key));
      Step(Success(created), s[key := created])
  }

  /** `UpdateAsync`: stamp `UpdatedAt`, replace the record whose id is `id`,
      and return the stamped quiz only when the store reports a modified
      record, that is, when the record exists and the replacement differs
      from it. */
  function Replace(s: Store, id: string, quiz: Quiz, now: Timestamp): (r: Step<Option<Quiz>>)
    requires quiz.id.None? || quiz.id == Some(id)
    ensures id !in s ==> r == Step(None, s)
    ensures r.result.Some? <==> id in s && s[id] != quiz.(updatedAt := now, id := Some(id))
    ensures id in s ==> Lookup(r.store, id) == Some(quiz.(updatedAt := now, id := Some(id)))
    ensures r.result.Some? ==> r.result.value == quiz.(updatedAt := now)
    ensures r.result.None? ==> r.store == s
    ensures id in s && s[id].updatedAt != now ==> r.result.Some?
    ensures forall k :: k != id ==> Lookup(r.store, k) == Lookup(s, k)
    ensures WellKeyed(s) ==> WellKeyed(r.store)
  {
    var stamped := quiz.(updatedAt := now);
    var replacement := stamped.(id := Some(id));
    if id in s && s[id] != replacement then Step(Some(stamped), s[id := replacement])
    else Step(None, s)
  }

  /** `DeleteAsync`: remove the record whose id is `id`; report whether one
      was removed. */
  function Remove(s: Store, id: string): (r: Step<bool>)
    ensures r.result <==> Lookup(s, id).Some?
    ensures Lookup(r.store, id) == None
    ensures forall k :: k != id ==> Lookup(r.store, k) == Lookup(s, k)
    ensures WellKeyed(s) ==> WellKeyed(r.store)
  {
    Step(id in s, s - {id})
  }

  /** Deleting the same id twice: the second call finds nothing, reports
      false and changes nothing. */
  lemma DeleteTwice(s: Store, id: string)
    ensures var first := Remove(s, id);
      var second := Remove(first.store, id);
      !second.result && second.store == first.store
  {
  }

  /** A length that exceeds the length of every key. */
  lemma {:induction false} LongerThanAll(keys: set<string>) returns (n: nat)
    ensures forall k :: k in keys ==> |k| < n
  {
    if keys == {} {
      n := 0;
    } else {
      var x :| x in keys;
      var m := LongerThanAll(keys - {x});
      n := if |x| < m then m else |x| + 1;
    }
  }

  /** The collection is finite, so some id is always free: an insert of a
      quiz without an id succeeds for some generated id. */
  lemma InsertCanSucceed(s: Store, quiz: Quiz)
    requires quiz.id.None?
    ensures exists generatedId :: Insert(s, quiz, generatedId).result.Success?
  {
    var n := LongerThanAll(s.Keys);
    var unused: string := seq(n, _ => '0');
    assert unused !in s;
    assert Insert(s, quiz, unused).result.Success?;
  }

  /** The repository object; `quizzes` is the collection it writes to. */
  class QuizRepository {
    var quizzes: Store

    ghost predicate Valid()
      reads this
    {
      WellKeyed(quizzes)
    }

    constructor (initial: Store)
      requires WellKeyed(initial)
      ensures Valid() && quizzes == initial
    {
      quizzes := initial;
    }

    method GetById(id: string) returns (r: Option<Quiz>)
      requires Valid()
      ensures r == Lookup(quizzes, id)
    {
      if id in quizzes {
        r := Some(quizzes[id]);
      } else {
        r := None;
      }
    }

    method Create(quiz: Quiz, generatedId: string) returns (r: Result<Quiz, StoreError>)
      requires Valid()
      modifies this
      ensures Valid()
      ensures Step(r, quizzes) == Insert(old(quizzes), quiz, generatedId)
    {
      var key := quiz.id.GetOr(generatedId);
      if key in quizzes {
        return Failure(DuplicateKey(key));
      }
      var created := quiz.(id := Some(key));
      quizzes := quizzes[key := created];
      r := Success(created);
    }

    method Update(id: string, quiz: Quiz, now: Timestamp) returns (r: Option<Quiz>)
      requires Valid()
      requires quiz.id.None? || quiz.id == Some(id)
      modifies this
      ensures Valid()
      ensures Step(r, quizzes) == Replace(old(quizzes), id, quiz, now)
    {
      var stamped := quiz.(updatedAt := now);
      var replacement := stamped.(id := Some(id));
      var modified := id in quizzes && quizzes[id] != replacement;
      if modified {
        quizzes := quizzes[id := replacement];
        r := Some(stamped);
      } else {
        r := None;
      }
    }

    method Delete(id: string) returns (deleted: bool)
      requires Valid()
      modifies this
      ensures Valid()
      ensures Step(deleted, quizzes) == Remove(old(quizzes), id)
    {
      deleted := id in quizzes;
      quizzes := quizzes - {id};
    }
  }
}
