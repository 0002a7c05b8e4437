/**
 * The insight editor of the check-in analysis panel: the coach reviews the
 * generated insights, rewrites, deletes or adds some, writes free-text
 * feedback and sends both to the client. The panel's state is the insight
 * list, the feedback text and the insight being edited with its draft text;
 * every handler replaces the list by a `map`, `filter` or spread of the old one.
 */
module CheckInEditor {
  import opened Domain
  import Text
  import Seqs

  /** `insights.map(i => i.id === id ? { ...i, text } : i)`. */
  function ReplaceText(insights: seq<CheckInInsight>, id: string, text: string): (r: seq<CheckInInsight>)
    ensures |r| == |insights|
    ensures forall i :: 0 <= i < |r| ==>
      r[i].id == insights[i].id && r[i].kind == insights[i].kind && r[i].editable == insights[i].editable
    ensures forall i :: 0 <= i < |r| ==> r[i].text == if insights[i].id == id then text else insights[i].text
  {
    seq(|insights|, i requires 0 <= i < |insights| =>
      if insights[i].id == id then insights[i].(text := text) else insights[i])
  }

  /** Some insight of the list carries this id. */
  predicate HasId(insights: seq<CheckInInsight>, id: string) {
    exists i | 0 <= i < |insights| :: insights[i].id == id
  }

  /** Rewriting an id the list does not hold changes nothing. */
  lemma ReplaceUnknownId(insights: seq<CheckInInsight>, id: string, text: string)
    requires !HasId(insights, id)
    ensures ReplaceText(insights, id, text) == insights
  {
    var r := ReplaceText(insights, id, text);
    forall i | 0 <= i < |r| ensures r[i] == insights[i] {
      assert insights[i].id != id;
    }
  }

  /** Of two successive edits of the same insight, the second one wins. */
  lemma ReplaceTwice(insights: seq<CheckInInsight>, id: string, first: string, second: string)
    ensures ReplaceText(ReplaceText(insights, id, first), id, second) == ReplaceText(insights, id, second)
  {
    var a := ReplaceText(ReplaceText(insights, id, first), id, second);
    var b := ReplaceText(insights, id, second);
    forall i | 0 <= i < |a| ensures a[i] == b[i] {
    }
  }

  /** Editing the last insight of a list whose other members carry other ids only rewrites that one. */
  lemma ReplaceAppended(insights: seq<CheckInInsight>, added: CheckInInsight, text: string)
    requires !HasId(insights, added.id)
    ensures ReplaceText(insights + [added], added.id, text) == insights + [added.(text := text)]
  {
    var r := ReplaceText(insights + [added], added.id, text);
    forall i | 0 <= i < |insights| ensures r[i] == insights[i] {
      assert (insights + [added])[i] == insights[i];
    }
  }

  /** `insights.filter(i => i.id !== id)`. */
  function Without(insights: seq<CheckInInsight>, id: string): (r: seq<CheckInInsight>)
    ensures |r| <= |insights|
    ensures forall i :: 0 <= i < |r| ==> r[i].id != id
  {
    Seqs.FilterSpec(insights, (x: CheckInInsight) => x.id != id);
    Seqs.Filter(insights, (x: CheckInInsight) => x.id != id)
  }

  /**
   * Deleting keeps exactly the insights with another id, in their order, and
   * shortens the list by the number of insights that carried the id.
   */
  lemma WithoutSpec(insights: seq<CheckInInsight>, id: string)
    ensures forall x :: x in Without(insights, id) <==> x in insights && x.id != id
    ensures Seqs.IsSubsequence(Without(insights, id), insights)
    ensures |Without(insights, id)| + Seqs.Count(insights, (x: CheckInInsight) => x.id == id) == |insights|
  {
    var keep := (x: CheckInInsight) => x.id != id;
    Seqs.FilterSpec(insights, keep);
    Seqs.FilterLength(insights, keep, (x: CheckInInsight) => x.id == id);
  }

  /** Deleting an id the list does not hold changes nothing. */
  lemma WithoutUnknownId(insights: seq<CheckInInsight>, id: string)
    requires !HasId(insights, id)
    ensures Without(insights, id) == insights
  {
    Seqs.FilterKeepsAll(insights, (x: CheckInInsight) => x.id != id);
  }

  /** The id `handleAddInsight` gives a new insight: `insight-<timestamp>`. */
  function NewInsightId(stamp: nat): string {
    "insight-" + Text.NatToString(stamp)
  }

  /** The blank, editable insight `handleAddInsight` appends. */
  function NewInsight(kind: string, stamp: nat): (n: CheckInInsight)
    ensures n.id == NewInsightId(stamp) && n.kind == kind && n.text == "" && n.editable
  {
    CheckInInsight(NewInsightId(stamp), kind, "", true)
  }

  /** Deleting an insight just added under a fresh id gives the list back as it was. */
  lemma DeleteUndoesAdd(insights: seq<CheckInInsight>, kind: string, stamp: nat)
    requires !HasId(insights, NewInsightId(stamp))
    ensures Without(insights + [NewInsight(kind, stamp)], NewInsightId(stamp)) == insights
  {
    var keep := (x: CheckInInsight) => x.id != NewInsightId(stamp);
    Seqs.FilterAppend(insights, [NewInsight(kind, stamp)], keep);
    Seqs.FilterKeepsAll(insights, keep);
    assert Seqs.Filter([NewInsight(kind, stamp)], keep) == [];
  }

  /** What "send to client" hands to `onSave`. */
  datatype Feedback = Feedback(insights: seq<CheckInInsight>, coachFeedback: string)

  /** The panel's state. */
  class InsightEditor {
    var insights: seq<CheckInInsight>
    var coachFeedback: string
    var editingId: Option<string>
    var editingText: string

    /** Initial state: the check-in's insights or none, its feedback or the empty text, no edit open. */
    constructor(aiInsights: Option<seq<CheckInInsight>>, feedback: Option<string>)
      ensures insights == (if aiInsights.Some? then aiInsights.value else [])
      ensures coachFeedback == (if feedback.Some? then feedback.value else "")
      ensures editingId == None && editingText == ""
    {
      insights := aiInsights.GetOr([]);
      coachFeedback := feedback.GetOr("");
      editingId := None;
      editingText := "";
    }

    /** The send button is enabled unless both the list and the feedback are empty. */
    predicate SendEnabled()
      reads this
    {
      !(|insights| == 0 && coachFeedback == "")
    }

    /** `handleEditInsight`: open the editor on one insight with its current text. */
    method EditInsight(id: string, currentText: string)
      modifies this
      ensures editingId == Some(id) && editingText == currentText
      ensures insights == old(insights) && coachFeedback == old(coachFeedback)
    {
      editingId := Some(id);
      editingText := currentText;
    }

    /** Typing into the open editor. */
    method SetEditingText(text: string)
      modifies this
      ensures editingText == text
      ensures insights == old(insights) && coachFeedback == old(coachFeedback) && editingId == old(editingId)
    {
      editingText := text;
    }

    /** `handleSaveEdit`: the draft text replaces the text of the insights with this id; the editor closes. */
    method SaveEdit(id: string)
      modifies this
      ensures insights == ReplaceText(old(insights), id, old(editingText))
      ensures editingId == None && editingText == ""
      ensures coachFeedback == old(coachFeedback)
    {
      insights := ReplaceText(insights, id, editingText);
      editingId := None;
      editingText := "";
    }

    /** `handleCancelEdit`: close the editor and keep the list. */
    method CancelEdit()
      modifies this
      ensures editingId == None && editingText == ""
      ensures insights == old(insights) && coachFeedback == old(coachFeedback)
    {
      editingId := None;
      editingText := "";
    }

    /** `handleDeleteInsight`: drop the insights with this id; an open editor is left as it is. */
    method DeleteInsight(id: string)
      modifies this
      ensures insights == Without(old(insights), id)
      ensures coachFeedback == old(coachFeedback)
      ensures editingId == old(editingId) && editingText == old(editingText)
    {
      insights := Without(insights, id);
    }

    /**
     * `handleAddInsight`: append a blank insight of the chosen category under
     * `insight-<stamp>` and open the editor on it. Sending is enabled afterwards.
     */
    method AddInsight(kind: string, stamp: nat)
      requires kind in InsightKinds
      modifies this
      ensures insights == old(insights) + [NewInsight(kind, stamp)]
      ensures editingId == Some(NewInsightId(stamp)) && editingText == ""
      ensures coachFeedback == old(coachFeedback)
      ensures SendEnabled()
    {
      var added := CheckInInsight("insight-" + Text.NatToString(stamp), kind, "", true);
      insights := insights + [added];
      editingId := Some(added.id);
      editingText := "";
    }

    /** Typing into the feedback box. */
    method SetFeedback(text: string)
      modifies this
      ensures coachFeedback == text
      ensures insights == old(insights) && editingId == old(editingId) && editingText == old(editingText)
    {
      coachFeedback := text;
    }

    /**
     * A click on "send to client": when the button is enabled, the current
     * list and feedback go to `onSave` as they are; when it is disabled
     * (no insight and no feedback) nothing is sent.
     */
    method SendToClient() returns (sent: Option<Feedback>)
      ensures sent.Some? <==> |insights| > 0 || coachFeedback != ""
      ensures sent.Some? ==> sent.value.insights == insights && sent.value.coachFeedback == coachFeedback
    {
      if |insights| == 0 && coachFeedback == "" {
        sent := None;
      } else {
        sent := Some(Feedback(insights, coachFeedback));
      }
    }
  }
}
