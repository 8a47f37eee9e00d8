/** The message id by which an exactly-once broker recognises a repeated publication. */
module MessageIds {

  function MessageId(clientId: string, correlationID: string): string {
    clientId + "-" + correlationID
  }

  /** A dash and the text before it can be read as the end of the first part or as the start of the second. */
  ghost predicate DashShifted(c1: string, r1: string, c2: string, r2: string) {
    exists middle :: c2 == c1 + "-" + middle && r1 == middle + "-" + r2
  }

  /** Two pairs share a message id exactly when a dash can be read as the separator in two places. */
  lemma SharedMessageIdExactlyWhen(c1: string, r1: string, c2: string, r2: string)
    ensures MessageId(c1, r1) == MessageId(c2, r2)
       <==> (c1 == c2 && r1 == r2) || DashShifted(c1, r1, c2, r2) || DashShifted(c2, r2, c1, r1)
  {
    if MessageId(c1, r1) == MessageId(c2, r2) {
      if |c1| == |c2| {
        assert c1 == MessageId(c1, r1)[..|c1|] && r1 == MessageId(c1, r1)[|c1| + 1..];
        assert c2 == MessageId(c2, r2)[..|c1|] && r2 == MessageId(c2, r2)[|c1| + 1..];
      } else if |c1| < |c2| {
        ShiftedDash(c1, r1, c2, r2);
      } else {
        ShiftedDash(c2, r2, c1, r1);
      }
    }
    if DashShifted(c1, r1, c2, r2) {
      DashShiftedShares(c1, r1, c2, r2);
    }
    if DashShifted(c2, r2, c1, r1) {
      DashShiftedShares(c2, r2, c1, r1);
    }
  }

  lemma DashShiftedShares(c1: string, r1: string, c2: string, r2: string)
    requires DashShifted(c1, r1, c2, r2)
    ensures MessageId(c1, r1) == MessageId(c2, r2)
  {
    var middle :| c2 == c1 + "-" + middle && r1 == middle + "-" + r2;
    assert c1 + "-" + (middle + "-" + r2) == (c1 + "-" + middle) + "-" + r2;
  }

  lemma ShiftedDash(c1: string, r1: string, c2: string, r2: string)
    requires MessageId(c1, r1) == MessageId(c2, r2) && |c1| < |c2|
    ensures DashShifted(c1, r1, c2, r2)
  {
    var id := MessageId(c1, r1);
    var middle := c2[|c1| + 1..];
    assert c1 == id[..|c1|] && c2 == id[..|c2|] && id[|c1|] == '-' && id[|c2|] == '-';
    assert r1 == id[|c1| + 1..] && r2 == id[|c2| + 1..];
    assert c2 == c1 + "-" + middle;
    assert r1 == middle + "-" + r2;
  }

  lemma FixedLengthIdsDiffer(c1: string, r1: string, c2: string, r2: string)
    requires |r1| == |r2|
    ensures MessageId(c1, r1) == MessageId(c2, r2) <==> c1 == c2 && r1 == r2
  {
    SharedMessageIdExactlyWhen(c1, r1, c2, r2);
  }

  datatype Publication<M> = Publication(clientId: string, correlationID: string, message: M)

  /** A broker that keeps the first message with each message id and drops the later ones. */
  function Stored<M>(history: seq<Publication<M>>): map<string, Publication<M>> {
    if history == [] then map[]
    else
      var n := |history| - 1;
      var before := Stored(history[..n]);
      var id := MessageId(history[n].clientId, history[n].correlationID);
      if id in before then before else before[id := history[n]]
  }

  predicate SamePair<M>(p: Publication<M>, q: Publication<M>) {
    p.clientId == q.clientId && p.correlationID == q.correlationID
  }

  predicate IsFirstOfPair<M>(history: seq<Publication<M>>, i: nat)
    requires i < |history|
  {
    forall j :: 0 <= j < i ==> !SamePair(history[j], history[i])
  }

  predicate HaveLength<M>(history: seq<Publication<M>>, length: nat) {
    forall i :: 0 <= i < |history| ==> |history[i].correlationID| == length
  }

  function IdOf<M>(p: Publication<M>): string {
    MessageId(p.clientId, p.correlationID)
  }

  function PairsOf<M>(history: seq<Publication<M>>): set<(string, string)> {
    set i | 0 <= i < |history| :: (history[i].clientId, history[i].correlationID)
  }

  lemma {:induction false} StoredIds<M>(history: seq<Publication<M>>, id: string)
    ensures id in Stored(history) <==> exists i :: 0 <= i < |history| && IdOf(history[i]) == id
  {
    hide MessageId;
    if history != [] {
      var n := |history| - 1;
      StoredIds(history[..n], id);
      assert forall i :: 0 <= i < n ==> history[..n][i] == history[i];
    }
  }

  lemma {:induction false} FirstWithIdIsStored<M>(history: seq<Publication<M>>, i: nat)
    requires i < |history| && forall j :: 0 <= j < i ==> IdOf(history[j]) != IdOf(history[i])
    ensures IdOf(history[i]) in Stored(history) && Stored(history)[IdOf(history[i])] == history[i]
    decreases |history|
  {
    hide MessageId;
    var n := |history| - 1;
    if i == n {
      StoredIds(history[..n], IdOf(history[n]));
    } else {
      FirstWithIdIsStored(history[..n], i);
    }
  }

  /** The last message id is stored already exactly when its pair was published before. */
  lemma StoredExactlyWhenPublished<M>(history: seq<Publication<M>>, length: nat)
    requires history != [] && HaveLength(history, length)
    ensures var last, earlier := history[|history| - 1], history[..|history| - 1];
            IdOf(last) in Stored(earlier) <==> (last.clientId, last.correlationID) in PairsOf(earlier)
  {
    hide MessageId, Stored;
    var n := |history| - 1;
    var earlier := history[..n];
    StoredIds(earlier, IdOf(history[n]));
    forall i | 0 <= i < n
      ensures earlier[i] == history[i]
      ensures IdOf(earlier[i]) == IdOf(history[n]) <==> SamePair(earlier[i], history[n])
    {
      FixedLengthIdsDiffer(
        history[i].clientId, history[i].correlationID, history[n].clientId, history[n].correlationID);
    }
    var pair := (history[n].clientId, history[n].correlationID);
    if pair in PairsOf(earlier) {
      var i :| 0 <= i < n && (earlier[i].clientId, earlier[i].correlationID) == pair;
      assert IdOf(earlier[i]) == IdOf(history[n]);
    }
  }

  lemma {:induction false} AsManyAsPairs<M>(history: seq<Publication<M>>, length: nat)
    requires HaveLength(history, length)
    ensures |Stored(history)| == |PairsOf(history)|
  {
    hide MessageId;
    if history == [] {
      assert PairsOf(history) == {};
    } else {
      var n := |history| - 1;
      AsManyAsPairs(history[..n], length);
      LastPair(history);
      StoredExactlyWhenPublished(history, length);
      hide PairsOf;
      var id, pair := IdOf(history[n]), (history[n].clientId, history[n].correlationID);
      if id in Stored(history[..n]) {
        assert PairsOf(history) == PairsOf(history[..n]);
      } else {
        assert Stored(history).Keys == Stored(history[..n]).Keys + {id};
        assert |Stored(history)| == |Stored(history).Keys| && |Stored(history[..n])| == |Stored(history[..n]).Keys|;
      }
    }
  }

  lemma LastPair<M>(history: seq<Publication<M>>)
    requires history != []
    ensures var n := |history| - 1;
            PairsOf(history) == PairsOf(history[..n]) + {(history[n].clientId, history[n].correlationID)}
  {
    var n := |history| - 1;
    var earlier := history[..n];
    forall pair | pair in PairsOf(earlier)
      ensures pair in PairsOf(history)
    {
      var i :| 0 <= i < n && (earlier[i].clientId, earlier[i].correlationID) == pair;
      assert earlier[i] == history[i];
    }
    forall pair | pair in PairsOf(history)
      ensures pair in PairsOf(earlier) || pair == (history[n].clientId, history[n].correlationID)
    {
      var i :| 0 <= i <= n && (history[i].clientId, history[i].correlationID) == pair;
      assert i == n || earlier[i] == history[i];
    }
  }

  /**
    With correlation ids of one length, any sequence of publications and retries leaves exactly one
    message per client and correlation id: the first that was published for that pair.
   */
  lemma OneMessagePerPair<M>(history: seq<Publication<M>>, length: nat)
    requires HaveLength(history, length)
    ensures forall i :: 0 <= i < |history| ==>
              IdOf(history[i]) in Stored(history) && SamePair(Stored(history)[IdOf(history[i])], history[i])
    ensures forall i :: 0 <= i < |history| && IsFirstOfPair(history, i) ==>
        Stored(history)[IdOf(history[i])] == history[i]
    ensures |Stored(history)| == |PairsOf(history)|
  {
    hide Stored, MessageId;
    AsManyAsPairs(history, length);
    forall i | 0 <= i < |history|
      ensures IdOf(history[i]) in Stored(history) && SamePair(Stored(history)[IdOf(history[i])], history[i])
      ensures IsFirstOfPair(history, i) ==> Stored(history)[IdOf(history[i])] == history[i]
    {
      var first := FirstOfPair(history, i);
      forall j | 0 <= j <= i
        ensures IdOf(history[j]) == IdOf(history[i]) <==> SamePair(history[j], history[i])
      {
        FixedLengthIdsDiffer(history[j].clientId, history[j].correlationID, history[i].clientId,
            history[i].correlationID);
      }
      FirstWithIdIsStored(history, first);
    }
  }

  lemma FirstOfPair<M>(history: seq<Publication<M>>, n: nat) returns (first: nat)
    requires n < |history|
    ensures first <= n && SamePair(history[first], history[n]) && IsFirstOfPair(history, first)
  {
    first := n;
    while !IsFirstOfPair(history, first)
      invariant first <= n && SamePair(history[first], history[n])
      decreases first
    {
      var earlier :| 0 <= earlier < first && SamePair(history[earlier], history[first]);
      first := earlier;
    }
  }

  /** Without a fixed length two different pairs can share an id, and the second is lost. */
  lemma VaryingLengthsCanCollide<M>(msg: M)
    ensures var history := [Publication("a", "b-c", msg), Publication("a-b", "c", msg)];
            !SamePair(history[0], history[1]) && |Stored(history)| == 1
  {
    var history := [Publication("a", "b-c", msg), Publication("a-b", "c", msg)];
    assert MessageId("a", "b-c") == "a-b-c" == MessageId("a-b", "c");
    assert IdOf(history[0]) == IdOf(history[1]) == "a-b-c";
    assert history[..1] == [history[0]] && history[..1][..0] == [];
    assert Stored(history[..1]) == map["a-b-c" := history[0]];
    assert Stored(history) == Stored(history[..1]);
  }
}
