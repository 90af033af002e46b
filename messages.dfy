/** The message record and the pure steps every mutation is built from:
    the `findIndex` lookup by id and the `??` merge of an update. */
module Messages {
  import opened Wrappers

  /** A stored message. `word` is None when it was never supplied: JSON
      persistence drops `undefined`, and `??` treats `null` the same way. */
  datatype Message = Message(id: int, content: string, word: Option<string>)

  /** `messages.findIndex(m => m.id === id)`: the first position holding
      `id`, or -1 when no message has it. */
  function FindIndex(ms: seq<Message>, id: int): (r: int)
    ensures -1 <= r < |ms|
    ensures r == -1 <==> forall i :: 0 <= i < |ms| ==> ms[i].id != id
    ensures r >= 0 ==> ms[r].id == id && forall i :: 0 <= i < r ==> ms[i].id != id
  {
    if ms == [] then -1
    else if ms[0].id == id then 0
    else
      var k := FindIndex(ms[1..], id);
      if k == -1 then -1 else k + 1
  }

  /** The lookup with an id that `parseInt` produced: NaN (None) is never
      `===` to a stored id, so it finds nothing. */
  function IndexOf(ms: seq<Message>, numericId: Option<int>): (r: int)
    ensures -1 <= r < |ms|
    ensures r >= 0 ==> numericId == Some(ms[r].id)
    ensures numericId.None? ==> r == -1
    ensures numericId.Some? ==> (r == -1 <==> forall i :: 0 <= i < |ms| ==> ms[i].id != numericId.value)
    ensures r >= 0 ==> forall i :: 0 <= i < r ==> ms[i].id != ms[r].id
  {
    match numericId
    case None => -1
    case Some(id) => FindIndex(ms, id)
  }

  /** `{ ...stored, content: content ?? stored.content, word: word ?? stored.word }`:
      a supplied field replaces the stored one (even an empty string, since
      `??` only skips null and undefined), an omitted one keeps it, and the
      id is never touched. */
  function Merge(stored: Message, content: Option<string>, word: Option<string>): (r: Message)
    ensures r.id == stored.id
    ensures content.Some? ==> r.content == content.value
    ensures content.None? ==> r.content == stored.content
    ensures word.Some? ==> r.word == word
    ensures word.None? ==> r.word == stored.word
  {
    stored.(content := if content.Some? then content.value else stored.content,
            word := if word.Some? then word else stored.word)
  }

  /** An update that supplies neither field leaves the message as it was. */
  lemma MergeNothingIsIdentity(stored: Message)
    ensures Merge(stored, None, None) == stored
  {
  }

  /** Sending the same update twice changes nothing the second time. */
  lemma MergeIsIdempotent(stored: Message, content: Option<string>, word: Option<string>)
    ensures Merge(Merge(stored, content, word), content, word) == Merge(stored, content, word)
  {
  }

  /** Two updates in a row act as one in which the later supplied fields win. */
  lemma MergeComposes(stored: Message, c1: Option<string>, w1: Option<string>,
                      c2: Option<string>, w2: Option<string>)
    ensures Merge(Merge(stored, c1, w1), c2, w2)
         == Merge(stored, if c2.Some? then c2 else c1, if w2.Some? then w2 else w1)
  {
  }

  /** The store's invariant under add and update from an empty file: the
      message at position i (0-based) has id i + 1. */
  predicate IdsArePositions(ms: seq<Message>) {
    forall i :: 0 <= i < |ms| ==> ms[i].id == i + 1
  }

  /** Positional ids are unique and strictly increasing by one. */
  lemma PositionalIdsIncrease(ms: seq<Message>)
    requires IdsArePositions(ms)
    ensures forall i, j :: 0 <= i < j < |ms| ==> ms[i].id < ms[j].id
    ensures forall i :: 0 < i < |ms| ==> ms[i].id == ms[i - 1].id + 1
  {
  }

  /** With positional ids the lookup of id k lands at position k - 1, and
      an id outside 1..|ms| is not found. */
  lemma FindIndexOfPositional(ms: seq<Message>, id: int)
    requires IdsArePositions(ms)
    ensures FindIndex(ms, id) == if 1 <= id <= |ms| then id - 1 else -1
  {
    if 1 <= id <= |ms| {
      assert ms[id - 1].id == id;
    }
  }

  /** Appending the message with the next id keeps ids positional. */
  lemma AppendNextKeepsPositions(ms: seq<Message>, m: Message)
    requires IdsArePositions(ms)
    requires m.id == |ms| + 1
    ensures IdsArePositions(ms + [m])
  {
  }

  /** Replacing a message by one with the same id keeps ids positional. */
  lemma ReplaceSameIdKeepsPositions(ms: seq<Message>, i: int, m: Message)
    requires IdsArePositions(ms)
    requires 0 <= i < |ms| && m.id == ms[i].id
    ensures IdsArePositions(ms[i := m])
  {
  }
}
