/** XREAD of several streams in one command: which start belongs to which key, and when it fails. */
module MultiReads {
  import opened Resp
  import opened Stores
  import opened Hosts

  /** The key at `j` and the start that stands `count` behind it are texts, and the key holds a stream. */
  predicate Answerable(s: Store, arr: seq<Resp>, count: nat, j: nat) {
    && Arg(arr, 2 + j).Some? && Arg(arr, 2 + count + j).Some?
    && XReadStream(s, Arg(arr, 2 + j).value, Arg(arr, 2 + count + j).value).Ok?
  }

  /** The key, and what its stream has behind its start. */
  function KeyReply(s: Store, arr: seq<Resp>, count: nat, j: nat): Resp
    requires Answerable(s, arr, count, j)
  {
    var key, start := Arg(arr, 2 + j).value, Arg(arr, 2 + count + j).value;
    Arr([Bulk(key), EntriesReply(XReadStream(s, key, start).value)])
  }

  ghost predicate Answered(s: Store, arr: seq<Resp>, count: nat, replies: seq<Resp>) {
    forall j: nat :: j < |replies| ==> Answerable(s, arr, count, j) && replies[j] == KeyReply(s, arr, count, j)
  }

  /** The loop part-way: the first `i` keys are answered. */
  lemma {:induction false} RestAnswers(s: Store, arr: seq<Resp>, count: nat, i: nat, replies: seq<Resp>)
    requires 2 + 2 * count <= |arr| && i == |replies| <= count && Answered(s, arr, count, replies)
    ensures var a := XReadKeys(s, arr, count, i, replies);
            if a.Reply? then a.v.Arr? && |a.v.elements| == count && Answered(s, arr, count, a.v.elements)
            else exists j: nat :: j < count && !Answerable(s, arr, count, j)
    decreases count - i
  {
    if i < count {
      var next := i + 1;
      XReadStep(s, arr, count, i, next, replies);
      if Answerable(s, arr, count, i) {
        RestAnswers(s, arr, count, next, replies + [KeyReply(s, arr, count, i)]);
      }
    }
  }

  /** XREAD answers if and only if every key holds a stream, and then key by key, each from its own start. */
  lemma {:induction false} EveryKeyIsAnswered(s: Store, arr: seq<Resp>, count: nat)
    requires |arr| == 2 + 2 * count && forall i :: 2 <= i < |arr| ==> arr[i].Bulk?
    ensures var a := XReadAnswer(s, arr);
            && (a.Reply? <==> forall j: nat :: j < count ==> Answerable(s, arr, count, j))
            && (a.Reply? ==> a.v.Arr? && |a.v.elements| == count && Answered(s, arr, count, a.v.elements))
  {
    RestAnswers(s, arr, count, 0, []);
    assert (|arr| - 2) / 2 == count;
  }
}
