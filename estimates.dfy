/** The estimate document and the detail view's editing session
    (`EstimateDetail`): the four tier edit commands, each working on a deep
    copy and committing it, the question-and-answer context sent with a
    refinement, and the swap of the refined result into the document. */
module Estimates {
  import opened Wrappers
  import opened JsText
  import opened Numbers
  import opened Pricing
  import opened ResponseExtraction

  datatype Status = Draft | Sent | Accepted | Revised

  /** The three keys of `result.estimates`: `affordable`, `mid_tier` and
      `high_end`. */
  datatype TierKey = Affordable | MidTier | HighEnd

  /** One clarifying question `{id, question}`. */
  datatype Question = Question(id: string, question: string)

  /** The parsed generator output: the tiers it priced (a tier may be
      missing) and its clarifying questions, if any. */
  datatype EstimateResult = EstimateResult(
    estimates: map<TierKey, Tier>,
    clarifyingQuestions: Option<seq<Question>>)

  /** A saved estimate. Timestamps are ISO strings supplied by the caller.
      Besides `result`, a new estimate stores its tiers a second time in
      `estimates` (`estimates: parsed.estimates`); that copy is what the PDF
      export and the list read. The first deep copy of the detail view
      separates the two, and only `result.estimates` is edited or refined
      afterwards. */
  datatype Estimate = Estimate(
    id: string,
    status: Status,
    clientName: string,
    projectName: string,
    quoteNumber: string,
    createdAt: string,
    updatedAt: string,
    selectedTier: TierKey,
    result: EstimateResult,
    estimates: map<TierKey, Tier>)

  /** `next.result.estimates[key] = t` on a copy of `e`. */
  function WithTier(e: Estimate, key: TierKey, t: Tier): (r: Estimate)
    ensures r.result.estimates.Keys == e.result.estimates.Keys + {key}
    ensures r.result.estimates[key] == t
    ensures forall k :: k in e.result.estimates && k != key ==>
      k in r.result.estimates && r.result.estimates[k] == e.result.estimates[k]
    ensures r.(result := e.result) == e
    ensures r.result.clarifyingQuestions == e.result.clarifyingQuestions
  {
    e.(result := e.result.(estimates := e.result.estimates[key := t]))
  }

  /** The tier exists and carries a `fabrication_items` array. */
  predicate HasItems(e: Estimate, key: TierKey)
  {
    key in e.result.estimates && e.result.estimates[key].fabricationItems.Some?
  }

  /** The tier exists and carries a `logistics` object. */
  predicate HasLogistics(e: Estimate, key: TierKey)
  {
    key in e.result.estimates && e.result.estimates[key].logistics.Some?
  }

  /** A replaced line only lands on an existing index. */
  predicate ValidLine(e: Estimate, key: TierKey, idx: nat)
  {
    HasItems(e, key) ==> idx < |e.result.estimates[key].fabricationItems.value|
  }

  /** The detail view of one estimate: the working copy being edited and
      whether it differs from what was last saved. An edit on a tier that
      is missing, or that lacks the edited array or object, throws before
      committing anything, so the state is left as it was. */
  class EstimateDetail {
    var localEst: Estimate
    var dirty: bool

    constructor (estimate: Estimate)
      ensures localEst == estimate && !dirty
    {
      localEst := estimate;
      dirty := false;
    }

    /** `update(next)`: commit a new working copy. */
    method Update(next: Estimate)
      modifies this
      ensures localEst == next && dirty
    {
      localEst := next;
      dirty := true;
    }

    /** `updateFabItem(tierKey, idx, newItem)`. */
    method UpdateFabItem(tierKey: TierKey, idx: nat, newItem: LineItem)
      modifies this
      requires ValidLine(localEst, tierKey, idx)
      ensures HasItems(old(localEst), tierKey) ==>
        && localEst == WithTier(old(localEst), tierKey,
             ReplaceItem(old(localEst).result.estimates[tierKey], idx, newItem))
        && dirty
      ensures !HasItems(old(localEst), tierKey) ==>
        localEst == old(localEst) && dirty == old(dirty)
    {
      var next := localEst;
      if !HasItems(next, tierKey) {
        return;
      }
      var tier := next.result.estimates[tierKey];
      var items := tier.fabricationItems.value;
      items := items[idx := newItem];
      tier := RecalcTotals(tier.(fabricationItems := Some(items)));
      Update(WithTier(next, tierKey, tier));
    }

    /** `deleteFabItem(tierKey, idx)`: `splice(idx, 1)` removes line `idx`,
        or nothing when there is no such line; the tier is recalculated
        either way. */
    method DeleteFabItem(tierKey: TierKey, idx: nat)
      modifies this
      ensures HasItems(old(localEst), tierKey) ==>
        var tier := old(localEst).result.estimates[tierKey];
        && localEst == WithTier(old(localEst), tierKey,
             if idx < |tier.fabricationItems.value| then RemoveItem(tier, idx)
             else RecalcTotals(tier))
        && dirty
      ensures !HasItems(old(localEst), tierKey) ==>
        localEst == old(localEst) && dirty == old(dirty)
    {
      var next := localEst;
      if !HasItems(next, tierKey) {
        return;
      }
      var tier := next.result.estimates[tierKey];
      var items := tier.fabricationItems.value;
      if idx < |items| {
        items := items[..idx] + items[idx + 1..];
      }
      tier := RecalcTotals(tier.(fabricationItems := Some(items)));
      Update(WithTier(next, tierKey, tier));
    }

    /** `addFabItem(tierKey)`: push the default line; the totals are not
        recalculated. */
    method AddFabItem(tierKey: TierKey)
      modifies this
      ensures HasItems(old(localEst), tierKey) ==>
        && localEst == WithTier(old(localEst), tierKey,
             AppendDefaultItem(old(localEst).result.estimates[tierKey]))
        && dirty
      ensures !HasItems(old(localEst), tierKey) ==>
        localEst == old(localEst) && dirty == old(dirty)
    {
      var next := localEst;
      if !HasItems(next, tierKey) {
        return;
      }
      var tier := next.result.estimates[tierKey];
      tier := tier.(fabricationItems := Some(tier.fabricationItems.value + [DefaultItem]));
      Update(WithTier(next, tierKey, tier));
    }

    /** `updateLogistics(tierKey, logKey, val)`. */
    method UpdateLogistics(tierKey: TierKey, logKey: string, val: Numeric)
      modifies this
      ensures HasLogistics(old(localEst), tierKey) ==>
        && localEst == WithTier(old(localEst), tierKey,
             SetLogistic(old(localEst).result.estimates[tierKey], logKey, val))
        && dirty
      ensures !HasLogistics(old(localEst), tierKey) ==>
        localEst == old(localEst) && dirty == old(dirty)
    {
      var next := localEst;
      if !HasLogistics(next, tierKey) {
        return;
      }
      var tier := next.result.estimates[tierKey];
      tier := RecalcTotals(tier.(logistics := Some(SetEntry(tier.logistics.value, logKey, val))));
      Update(WithTier(next, tierKey, tier));
    }

    /** `updateField("status", s)`, the status picker; the other uses of
        `updateField` set the free-text client fields. */
    method UpdateStatus(s: Status)
      modifies this
      ensures localEst == old(localEst).(status := s) && dirty
    {
      Update(localEst.(status := s));
    }

    /** `save()`: hand over the working copy with the tier being viewed
        recorded as the selected one and `updatedAt` set to `now`; the
        working copy itself is kept and is no longer dirty. */
    method Save(activeTier: TierKey, now: string) returns (toSave: Estimate)
      modifies this
      ensures toSave == old(localEst).(selectedTier := activeTier, updatedAt := now)
      ensures localEst == old(localEst) && !dirty
    {
      toSave := localEst.(selectedTier := activeTier, updatedAt := now);
      dirty := false;
    }

    /** `handleRefine` once the generator has replied with `reply`. The
        handler works from `snapshot`, the working copy captured when the
        refinement was started: its questions decide whether anything
        happens, and the revised document is built from it, so an edit
        committed while the request was pending is overwritten. With no
        clarifying questions nothing happens; otherwise the reply goes
        through `extractJSON` and, when `parse` (standing for `JSON.parse`)
        accepts the object text, the revised snapshot is committed. The
        extraction outcome is the one `Delimits` allows, which is unique. */
    method HandleRefine(snapshot: Estimate, reply: string,
                        parse: string -> Option<EstimateResult>, now: string)
      modifies this
      ensures snapshot.result.clarifyingQuestions.None? ==>
        localEst == old(localEst) && dirty == old(dirty)
      ensures snapshot.result.clarifyingQuestions.Some? ==>
        exists r :: Delimits(StripFences(reply), r)
          && localEst == (if Swaps(snapshot, r, parse) then Refined(snapshot, r, parse, now) else old(localEst))
          && dirty == (Swaps(snapshot, r, parse) || old(dirty))
    {
      if snapshot.result.clarifyingQuestions.None? {
        return;
      }
      var extracted := ExtractJson(reply);
      if extracted.Failure? {
        return;
      }
      var parsed := parse(extracted.value);
      if parsed.None? {
        return;
      }
      Update(snapshot.(result := parsed.value, status := Revised, updatedAt := now));
    }
  }

  /** The refinement takes effect: there are questions being answered,
      an object was delimited and it parsed. */
  predicate Swaps(e: Estimate, extracted: Result<string, ExtractError>, parse: string -> Option<EstimateResult>)
  {
    e.result.clarifyingQuestions.Some? && extracted.Success? && parse(extracted.value).Some?
  }

  /** The document after a refinement whose extraction gave `extracted`:
      the parsed result, status `revised` and the new `updatedAt`, all
      other fields kept; or the document unchanged. */
  function Refined(e: Estimate, extracted: Result<string, ExtractError>,
                   parse: string -> Option<EstimateResult>, now: string): Estimate
  {
    if Swaps(e, extracted, parse) then
      e.(result := parse(extracted.value).value, status := Revised, updatedAt := now)
    else e
  }

  /** A reply holding the refined estimate in a fenced `json` block
      revises the document with that estimate. */
  lemma RefineFromFencedReply(e: Estimate, inner: string, parse: string -> Option<EstimateResult>,
                              now: string, r: Result<string, ExtractError>)
    requires WellNested(inner) && '`' !in inner
    requires e.result.clarifyingQuestions.Some?
    requires parse("{" + inner + "}").Some?
    requires Delimits(StripFences("```json\n" + ("{" + inner + "}") + "\n```"), r)
    ensures var next := Refined(e, r, parse, now);
      && next.result == parse("{" + inner + "}").value
      && next.status == Revised && next.updatedAt == now
      && next.id == e.id && next.createdAt == e.createdAt && next.clientName == e.clientName
  {
    var obj := "{" + inner + "}";
    var clean := StripFences("```json\n" + obj + "\n```");
    FencedObjectExtracted(inner);
    DelimitsUnique(clean, r, Success(obj));
  }

  /** Without questions, or when nothing can be extracted, the document
      stays as it was. */
  lemma RefineKeepsOnFailure(e: Estimate, reply: string, parse: string -> Option<EstimateResult>,
                             now: string, r: Result<string, ExtractError>)
    requires Delimits(StripFences(reply), r)
    requires e.result.clarifyingQuestions.None? || '{' !in StripFences(reply)
    ensures Refined(e, r, parse, now) == e
  {
    Outcome(StripFences(reply), r);
  }

  /** An edit through `WithTier` changes that one tier and nothing else of
      the document. */
  lemma OnlyTargetTierChanges(e: Estimate, key: TierKey, t: Tier, k: TierKey)
    requires key in e.result.estimates && k != key
    ensures var r := WithTier(e, key, t);
      && r.result.estimates.Keys == e.result.estimates.Keys
      && (k in e.result.estimates ==> r.result.estimates[k] == e.result.estimates[k])
      && r.id == e.id && r.status == e.status && r.updatedAt == e.updatedAt
      && r.selectedTier == e.selectedTier
  {
  }

  // ---------------------------------------------------------------------
  // The tier the PDF export prints
  // ---------------------------------------------------------------------

  /** The tier `generatePDF({ ...localEst, selectedTier: activeTier })`
      prints, as written: it reads the copy stored at creation in
      `estimates`; `None` is the early return for a missing tier. */
  function ExportedTierAsWritten(e: Estimate, activeTier: TierKey): (t: Option<Tier>)
    ensures t.Some? <==> activeTier in e.estimates
    ensures t.Some? ==> t.value == e.estimates[activeTier]
  {
    if activeTier in e.estimates then Some(e.estimates[activeTier]) else None
  }

  /** The tier the export evidently means to print: the working copy's
      current `result.estimates[activeTier]`. */
  function ExportedTier(e: Estimate, activeTier: TierKey): (t: Option<Tier>)
    ensures t.Some? <==> activeTier in e.result.estimates
    ensures t.Some? ==> t.value == e.result.estimates[activeTier]
  {
    if activeTier in e.result.estimates then Some(e.result.estimates[activeTier]) else None
  }

  /** Right after creation both copies hold the same tiers, so the two
      readings agree. */
  lemma ExportAgreesWhenCreated(e: Estimate, activeTier: TierKey)
    requires e.estimates == e.result.estimates
    ensures ExportedTierAsWritten(e, activeTier) == ExportedTier(e, activeTier)
  {
  }

  /** After any tier edit or refinement the code as written still exports
      the tier as first generated: editing tier `key` to `t` leaves the
      printed tier at its old value even though the document now holds
      `t`. */
  lemma StaleExport(e: Estimate, key: TierKey, t: Tier)
    requires e.estimates == e.result.estimates && key in e.estimates
    requires t != e.result.estimates[key]
    ensures var next := WithTier(e, key, t);
      && ExportedTierAsWritten(next, key) == Some(e.result.estimates[key])
      && ExportedTierAsWritten(next, key) != ExportedTier(next, key)
  {
    var next := WithTier(e, key, t);
    assert next.estimates == e.estimates;
  }

  /** Reading the working copy, the export prints the tier as edited. */
  lemma ExportShowsEdit(e: Estimate, key: TierKey, t: Tier)
    ensures ExportedTier(WithTier(e, key, t), key) == Some(t)
  {
  }

  // ---------------------------------------------------------------------
  // The refinement context
  // ---------------------------------------------------------------------

  /** `${answers[q.id] || "Not specified"}`: `answers` is a plain object
      whose own entries are the answers typed or picked, so an id naming
      an `Object.prototype` member that has no answer of its own reads
      the inherited member. */
  function AnswerText(answers: map<string, string>, id: string): (r: string)
    ensures id in answers && answers[id] != "" ==> r == answers[id]
    ensures (id !in answers || answers[id] == "") && id !in ObjectPrototypeMembers ==>
      r == "Not specified"
  {
    TemplateText(OrElse(PropertyOf(answers, id), "Not specified"))
  }

  /** `Q: ${q.question}\nA: ${answer}` */
  function QaBlock(q: Question, answers: map<string, string>): string
  {
    "Q: " + q.question + "\nA: " + AnswerText(answers, q.id)
  }

  /** `parts.join(sep)`. */
  function Join(parts: seq<string>, sep: string): string
  {
    if parts == [] then ""
    else if |parts| == 1 then parts[0]
    else Join(parts[..|parts| - 1], sep) + sep + parts[|parts| - 1]
  }

  function Blocks(questions: seq<Question>, answers: map<string, string>): (r: seq<string>)
    ensures |r| == |questions|
    ensures forall i :: 0 <= i < |questions| ==> r[i] == QaBlock(questions[i], answers)
  {
    seq(|questions|, i requires 0 <= i < |questions| => QaBlock(questions[i], answers))
  }

  /** The clarifying-answers context of `handleRefine`: one block per
      question, separated by a blank line. */
  function ClarificationContext(questions: seq<Question>, answers: map<string, string>): string
  {
    Join(Blocks(questions, answers), "\n\n")
  }

  /** Joining two non-empty lists puts exactly one separator between
      their joins. */
  lemma {:induction false} JoinAppend(a: seq<string>, b: seq<string>, sep: string)
    requires a != [] && b != []
    ensures Join(a + b, sep) == Join(a, sep) + sep + Join(b, sep)
    decreases |b|
  {
    var ab := a + b;
    if |b| == 1 {
      assert ab[..|ab| - 1] == a;
    } else {
      var init, last := b[..|b| - 1], b[|b| - 1];
      assert ab[..|ab| - 1] == a + init && ab[|ab| - 1] == last;
      calc {
        Join(ab, sep);
        Join(a + init, sep) + sep + last;
        { JoinAppend(a, init, sep); }
        Join(a, sep) + sep + Join(init, sep) + sep + last;
        Join(a, sep) + sep + (Join(init, sep) + sep + last);
        Join(a, sep) + sep + Join(b, sep);
      }
    }
  }

  /** The context for more questions extends the context for fewer by a
      blank line and the new blocks; a single question gives one block. */
  lemma ContextAppend(qs: seq<Question>, more: seq<Question>, answers: map<string, string>)
    requires qs != [] && more != []
    ensures ClarificationContext(qs + more, answers)
      == ClarificationContext(qs, answers) + "\n\n" + ClarificationContext(more, answers)
  {
    var all, a, b := Blocks(qs + more, answers), Blocks(qs, answers), Blocks(more, answers);
    assert all == a + b by {
      forall i | 0 <= i < |all|
        ensures all[i] == (a + b)[i]
      {
        if i < |qs| {
          assert (qs + more)[i] == qs[i];
        } else {
          assert (qs + more)[i] == more[i - |qs|];
        }
      }
    }
    JoinAppend(Blocks(qs, answers), Blocks(more, answers), "\n\n");
  }

  /** A question with a non-empty answer quotes it; without one it reads
      "Not specified", unless its id names an inherited member of a plain
      object and has no entry at all, in which case the member's printed
      form stands in for the answer. */
  lemma SingleQuestionContext(q: Question, answers: map<string, string>)
    ensures ClarificationContext([q], answers)
      == "Q: " + q.question + "\nA: "
         + (if q.id in answers && answers[q.id] != "" then answers[q.id]
            else if q.id !in answers && q.id in ObjectPrototypeMembers then TemplateText(Inherited(q.id))
            else "Not specified")
  {
    assert Blocks([q], answers) == [QaBlock(q, answers)];
  }

  /** Unanswered questions with the ids `constructor` and `__proto__`
      are sent as answered by `function Object() { [native code] }` and
      `[object Object]`; no id of an inherited member reads
      "Not specified". */
  lemma InheritedAnswerLeaks(answers: map<string, string>, id: string)
    requires id in ObjectPrototypeMembers && id !in answers
    ensures AnswerText(answers, id) != "Not specified"
    ensures id == "constructor" ==> AnswerText(answers, id) == "function Object() { [native code] }"
    ensures id == "__proto__" ==> AnswerText(answers, id) == "[object Object]"
  {
    assert AnswerText(answers, id) == TemplateText(Inherited(id)) by {
      assert PropertyOf(answers, id) == Inherited(id);
    }
    InheritedText(id);
    assert "Not specified"[0] == 'N';
  }

  /** The id has a non-empty answer of its own. */
  predicate Answered(answers: map<string, string>, id: string)
  {
    id in answers && answers[id] != ""
  }

  /** Two answer objects agree on `id`: the same non-empty answer, or none
      in both. An empty answer reads as a missing one, except for an id
      naming an `Object.prototype` member, where an own entry, even an
      empty one, hides the inherited member, so both must have it or
      neither. */
  predicate SameAnswer(a1: map<string, string>, a2: map<string, string>, id: string)
  {
    && Answered(a1, id) == Answered(a2, id)
    && (Answered(a1, id) ==> a1[id] == a2[id])
    && (id in ObjectPrototypeMembers ==> (id in a1 <==> id in a2))
  }

  /** Answer objects that agree on an id print the same answer for it. */
  lemma SameAnswerText(a1: map<string, string>, a2: map<string, string>, id: string)
    requires SameAnswer(a1, a2, id)
    ensures AnswerText(a1, id) == AnswerText(a2, id)
  {
    if !Answered(a1, id) && id in ObjectPrototypeMembers {
      if id in a1 {
        assert PropertyOf(a1, id) == Str("") && PropertyOf(a2, id) == Str("");
      } else {
        assert PropertyOf(a1, id) == Inherited(id) && PropertyOf(a2, id) == Inherited(id);
      }
    }
  }

  /** Only the answers to the questions asked matter: answer objects that
      agree, in the sense of `SameAnswer`, on every id asked give the same
      context. */
  lemma {:induction false} ContextDependsOnAskedOnly(qs: seq<Question>, a1: map<string, string>, a2: map<string, string>)
    requires forall q :: q in qs ==> SameAnswer(a1, a2, q.id)
    ensures ClarificationContext(qs, a1) == ClarificationContext(qs, a2)
  {
    assert Blocks(qs, a1) == Blocks(qs, a2) by {
      forall i | 0 <= i < |qs|
        ensures Blocks(qs, a1)[i] == Blocks(qs, a2)[i]
      {
        assert qs[i] in qs;
        SameAnswerText(a1, a2, qs[i].id);
      }
    }
  }
}
