/** Issuing as it is written: the counter row and the documents updated in place, a
    failure putting everything back.

    Each call is one of the runs of the model. The lemmas after the class follow one
    call that runs alone: the document looked up by its key, the number taken, the
    document finished and inserted, the commit; and at each of them the call may end
    with nothing changed. What the model guarantees about every run, that numbers have
    no gaps and keys make one document, therefore holds of these calls. */
module InvoiceStore {
  import opened Common
  import opened Documents
  import opened Invoicing

  datatype Failure = NotRendered | NoNumber | Duplicate

  /** The effect and the answer of one issue that runs alone. */
  function Issued(db: Db, req: Request, rendered: bool): (Db, Result<(Doc, bool), Failure>) {
    var was, d := ByKey(db.documents, req.key), Finished(req, Next(db, req.year));
    if req.key != "" && was.Some? then (db, Ok((was.value, true)))
    else if !rendered then (db, Err(NotRendered))
    else if d.Err? then (db, Err(NoNumber))
    else if Clashes(db.documents, d.value) then (db, Err(Duplicate))
    else (Committed(db, Tx(req, Inserted(d.value))), Ok((d.value, false)))
  }

  /** Some document has the id, the number, the key or the original that this would. */
  predicate Taken(docs: seq<Doc>, req: Request, number: string) {
    exists k :: 0 <= k < |docs| &&
      (|| docs[k].req.id == req.id
       || docs[k].number == number
       || (req.key != "" && docs[k].req.key == req.key)
       || (req.corrects.Some? && docs[k].req.corrects == req.corrects))
  }

  /** The documents with the note's id at the one it corrects. */
  function Corrected(docs: seq<Doc>, original: Option<DocId>, note: DocId): (r: seq<Doc>)
    ensures |r| == |docs|
    ensures forall k :: 0 <= k < |docs| ==>
      r[k] == if original == Some(docs[k].req.id) then docs[k].(correctedBy := Some(note)) else docs[k]
  {
    seq(|docs|, k requires 0 <= k < |docs| =>
      if original == Some(docs[k].req.id) then docs[k].(correctedBy := Some(note)) else docs[k])
  }

  lemma {:induction false} ByKeyFinds(docs: seq<Doc>, key: string)
    ensures ByKey(docs, key).Some? <==> exists k :: 0 <= k < |docs| && docs[k].req.key == key
    ensures ByKey(docs, key).Some? ==> ByKey(docs, key).value in docs && ByKey(docs, key).value.req.key == key
  {
    if docs != [] {
      var n := |docs| - 1;
      ByKeyFinds(docs[..n], key);
      if docs[n].req.key != key {
        forall k | 0 <= k < |docs| && docs[k].req.key == key ensures docs[..n][k].req.key == key {}
      }
    }
  }

  predicate Repeated(docs: seq<Doc>, key: string) {
    key != "" && exists k :: 0 <= k < |docs| && docs[k].req.key == key
  }

  /** What one issue answers and leaves: the document the key already made; a refusal,
      with nothing changed, for each of the three reasons; or the document as asked for
      under the next number of its year, with the counter one further and its id at what
      it corrects. */
  lemma IssueSays(db: Db, req: Request, rendered: bool)
    ensures
      var (after, r) := Issued(db, req, rendered);
      var n := if req.year in db.counters then db.counters[req.year] else 1;
      var number := N.Format(req.year, req.code, n);
      if Repeated(db.documents, req.key) then
        after == db && r.Ok? && r.value.1 && r.value.0 in db.documents && r.value.0.req.key == req.key
      else if !rendered then (after, r) == (db, Err(NotRendered))
      else if number.Err? then (after, r) == (db, Err(NoNumber))
      else if Taken(db.documents, req, number.value) then (after, r) == (db, Err(Duplicate))
      else
        && r == Ok((Doc(req, n, number.value, None), false))
        && after.documents == Corrected(db.documents, req.corrects, req.id) + [r.value.0]
        && after.counters == db.counters[req.year := n + 1]
  {
    hide N.Format, ByKey, Clashes;
    ByKeyFinds(db.documents, req.key);
    var d := Finished(req, Next(db, req.year));
    if d.Ok? {
      ClashesIsTaken(db.documents, d.value);
      assert Pointed(db.documents, d.value) == Corrected(db.documents, req.corrects, req.id);
    }
  }

  lemma ClashesIsTaken(docs: seq<Doc>, d: Doc)
    ensures Clashes(docs, d) <==> Taken(docs, d.req, d.number)
  {
  }

  lemma {:induction false} ByIdAt(docs: seq<Doc>, k: nat)
    requires Unique(docs) && k < |docs|
    ensures ById(docs, docs[k].req.id) == Some(docs[k])
  {
    if k < |docs| - 1 {
      assert Clash(docs[k], docs[|docs| - 1]) || docs[k].req.id != docs[|docs| - 1].req.id;
      assert docs[..|docs| - 1][k] == docs[k];
      ByIdAt(docs[..|docs| - 1], k);
    }
  }

  /** The document a correction names, when it can be corrected: not a credit note, and
      not corrected already. */
  predicate Names(id: DocId, d: Doc) {
    d.req.id == id && d.correctedBy.None? && d.req.kind != CreditNote
  }

  predicate AllRight(lines: seq<Asked>) {
    lines != [] && forall i :: 0 <= i < |lines| ==> Right(lines[i])
  }

  /** What is sold is made of lines that are all right; a correction names a document that
      can be corrected and credits all of it, or lines of no more than it came to; a
      subscription is one line without tax. Anything else is refused. */
  lemma PreparedSays(docs: seq<Doc>, ask: Ask)
    requires Unique(docs)
    ensures
      var p := Prepared(docs, ask);
      match ask
      case Sell(kind, lines) =>
        && (p.Some? <==> kind != CreditNote && AllRight(lines))
        && (p.Some? ==> Built(lines) == Ok(p.value.1) && p == Some((kind, p.value.1, None)))
      case CorrectWhole(id) =>
        && (p.Some? <==> exists d :: d in docs && Names(id, d))
        && (forall d :: d in docs && Names(id, d) ==> p == Some((CreditNote, Credited(d.req.body), Some(id))))
      case CorrectPart(id, lines) =>
        && (p.Some? ==> Built(lines) == Ok(p.value.1) && p == Some((CreditNote, p.value.1, Some(id))))
        && (p.Some? <==>
              && AllRight(lines) && Built(lines).Ok?
              && exists d :: d in docs && Names(id, d) && Built(lines).value.gross <= d.req.body.gross)
      case Bill(amount) =>
        && p.Some? && p.value.0 == SubscriptionInvoice && p.value.2 == None && |p.value.1.lines| == 1
        && Sound(p.value.1) && p.value.1.tax == 0 && p.value.1.gross == amount && p.value.1.lines[0].quantity == 1
  {
    hide Built, Credited, Right, Clash, ById, Sound;
    match ask {
      case Sell(_, lines) => BuiltKeeps(lines);
      case CorrectWhole(id) => NamedIsFound(docs, id);
      case CorrectPart(id, lines) =>
        BuiltKeeps(lines);
        NamedIsFound(docs, id);
      case Bill(amount) => BillIsSound(amount);
    }
  }

  lemma NamedIsFound(docs: seq<Doc>, id: DocId)
    requires Unique(docs)
    ensures ById(docs, id).Some? && Correctable(ById(docs, id).value) ==> exists d :: d in docs && Names(id, d)
    ensures forall d :: d in docs && Names(id, d) ==> ById(docs, id) == Some(d) && Correctable(d)
  {
    hide Unique, Clash;
    ByIdFinds(docs, id);
    if ById(docs, id).Some? && Correctable(ById(docs, id).value) {
      assert ById(docs, id).value in docs && Names(id, ById(docs, id).value);
    }
    forall d | d in docs && Names(id, d)
      ensures ById(docs, id) == Some(d) && Correctable(d)
    {
      var k :| 0 <= k < |docs| && docs[k] == d;
      ByIdAt(docs, k);
    }
  }

  class Store {
    var counters: map<int, int>
    var documents: seq<Doc>

    ghost function Now(): Db
      reads this
    {
      Db(counters, documents)
    }

    /** One statement: the row is made holding 2 or moved on by one, and the number
        taken is one less than it holds. */
    method NextNumber(year: int) returns (n: int)
      modifies this
      ensures n == Next(old(Now()), year)
      ensures documents == old(documents) && counters == old(counters)[year := n + 1]
    {
      if year in counters {
        counters := counters[year := counters[year] + 1];
      } else {
        counters := counters[year := 2];
      }
      n := counters[year] - 1;
    }

    /** The id is new, so it is not the id of what is corrected. */
    method Issue(req: Request, rendered: bool) returns (r: Result<(Doc, bool), Failure>)
      requires req.corrects != Some(req.id)
      modifies this
      ensures (Now(), r) == Issued(old(Now()), req, rendered)
    {
      if req.key != "" {
        var existing := ByKey(documents, req.key);
        if existing.Some? {
          return Ok((existing.value, true));
        }
      }
      var before := counters;
      var sequence := NextNumber(req.year);
      if !rendered {
        counters := before;
        return Err(NotRendered);
      }
      var d := Finished(req, sequence);
      if d.Err? {
        counters := before;
        return Err(NoNumber);
      }
      if Clashes(documents, d.value) {
        counters := before;
        return Err(Duplicate);
      }
      hide Clashes, ByKey;
      documents := documents + [d.value];
      if req.corrects.Some? {
        PointOriginal(req.corrects.value, req.id, d.value);
        assert (old(documents) + [d.value])[..|old(documents)|] == old(documents);
      } else {
        assert Pointed(old(documents), d.value) == old(documents);
      }
      return Ok((d.value, false));
    }

    /** The update of the original's pointer, in the table that already holds the note. */
    method PointOriginal(id: DocId, note: DocId, ghost d: Doc)
      requires documents != [] && documents[|documents| - 1] == d
      requires d.req.corrects == Some(id) && d.req.id == note != id
      modifies this
      ensures counters == old(counters)
      ensures documents == Pointed(old(documents)[..|old(documents)| - 1], d) + [d]
    {
      for i := 0 to |documents|
        invariant counters == old(counters) && |documents| == |old(documents)|
        invariant forall k :: 0 <= k < i ==> documents[k] == Pointed1(old(documents)[k], d)
        invariant forall k :: i <= k < |documents| ==> documents[k] == old(documents)[k]
      {
        if documents[i].req.id == id {
          documents := documents[i := documents[i].(correctedBy := Some(note))];
        }
      }
    }

    /** From what is asked for to what is to be issued. */
    method Prepare(ask: Ask) returns (p: Option<(Kind, Body, Option<DocId>)>)
      ensures p == Prepared(documents, ask)
    {
      match ask {
        case Sell(kind, lines) =>
          if kind == CreditNote || |lines| == 0 {
            return None;
          }
          var b := Build(lines);
          return if b.Ok? then Some((kind, b.value, None)) else None;
        case CorrectWhole(id) =>
          var o := ById(documents, id);
          if o.None? || !Correctable(o.value) {
            return None;
          }
          var b := Credit(o.value.req.body);
          return Some((CreditNote, b, Some(id)));
        case CorrectPart(id, lines) =>
          var o := ById(documents, id);
          if o.None? || !Correctable(o.value) || |lines| == 0 {
            return None;
          }
          var b := Build(lines);
          if b.Err? || b.value.gross > o.value.req.body.gross {
            return None;
          }
          return Some((CreditNote, b.value, Some(id)));
        case Bill(amount) =>
          return Some((SubscriptionInvoice, Body([Line(1, amount, amount, 0, amount, 0)], amount, 0, amount), None));
      }
    }
  }

  // ----------------------------------------------------------------- each call is a run

  ghost predicate Reaches(s: State, t: State) {
    exists steps :: Run(s, steps) == t
  }

  lemma {:induction false} RunSnoc(s: State, steps: seq<Step>, last: Step)
    ensures Run(s, steps + [last]) == Exec(Run(s, steps), last)
    decreases |steps|
  {
    hide Exec;
    if steps == [] {
      assert Run(Exec(s, last), []) == Exec(s, last);
    } else {
      assert (steps + [last])[1..] == steps[1..] + [last];
      RunSnoc(Exec(s, steps[0]), steps[1..], last);
    }
  }

  lemma ReachesStep(s: State, t: State, step: Step)
    requires Reaches(s, t)
    ensures Reaches(s, Exec(t, step))
  {
    hide Run, Exec;
    var steps :| Run(s, steps) == t;
    RunSnoc(s, steps, step);
  }

  ghost function Alone(db: Db, req: Request, phase: Phase): State { State(db, map[0 := Tx(req, phase)]) }

  lemma AloneBegins(db: Db, ask: Ask, req: Request)
    requires Prepared(db.documents, ask) == Some((req.kind, req.body, req.corrects)) && req.whole == ask.CorrectWhole?
    ensures Reaches(State(db, map[]), Alone(db, req, Begun))
  {
    hide Prepared;
    var s := State(db, map[]);
    assert Run(s, []) == s;
    ReachesStep(s, s, Begin(0, ask, req.id, req.year, req.key, req.code));
    assert map[][0 := Tx(req, Begun)] == map[0 := Tx(req, Begun)];
  }

  lemma AloneAdvances(db: Db, req: Request, phase: Phase, rendered: bool)
    requires Reaches(State(db, map[]), Alone(db, req, phase))
    ensures var o := Statement(Alone(db, req, phase), 0, rendered);
            Reaches(State(db, map[]),
                    match o
                    case Blocked => Alone(db, req, phase)
                    case RolledBack => State(db, map[])
                    case Proceed(tx) => State(db, map[0 := tx]))
  {
    hide Run, Statement;
    var s := Alone(db, req, phase);
    ReachesStep(State(db, map[]), s, Advance(0, rendered));
    assert s.txs - {0} == map[];
    match Statement(s, 0, rendered)
    case Proceed(tx) => assert s.txs[0 := tx] == map[0 := tx];
    case _ =>
  }

  lemma AloneCommits(db: Db, req: Request, phase: Phase)
    requires Reaches(State(db, map[]), Alone(db, req, phase)) && (phase.Inserted? || phase.Answered?)
    ensures Reaches(State(db, map[]), State(Committed(db, Tx(req, phase)), map[]))
  {
    hide Run, Committed;
    ReachesStep(State(db, map[]), Alone(db, req, phase), Commit(0));
    assert Alone(db, req, phase).txs - {0} == map[];
  }

  /** A call of Issue, with what Prepare made of a request, is a run of the model. */
  lemma IssueIsRun(db: Db, ask: Ask, req: Request, rendered: bool)
    requires Prepared(db.documents, ask) == Some((req.kind, req.body, req.corrects)) && req.whole == ask.CorrectWhole?
    ensures Reaches(State(db, map[]), State(Issued(db, req, rendered).0, map[]))
  {
    hide Run, Exec, Prepared, Reaches, ByKey, Clashes, Pointed;
    AloneBegins(db, ask, req);
    AloneAdvances(db, req, Begun, rendered);
    var was := ByKey(db.documents, req.key);
    if req.key != "" && was.Some? {
      AloneCommits(db, req, Answered(was.value));
    } else {
      AloneAdvances(db, req, Looked, rendered);
      var n := Next(db, req.year);
      AloneAdvances(db, req, Numbered(n), rendered);
      var d := Finished(req, n);
      if rendered && d.Ok? && !Clashes(db.documents, d.value) {
        AloneCommits(db, req, Inserted(d.value));
      }
    }
  }

  /** Asking again under the same key answers with the same document and takes no
      number. */
  lemma IssueAgain(db: Db, req: Request, again: Request)
    requires req.key != "" && again.key == req.key
    requires Issued(db, req, true).1.Ok? && !Issued(db, req, true).1.value.1
    ensures var (after, r) := Issued(db, req, true);
            Issued(after, again, true) == (after, Ok((r.value.0, true)))
  {
    hide Pointed, Clashes, Next;
    var d := Finished(req, Next(db, req.year)).value;
    assert (Pointed(db.documents, d) + [d])[|db.documents|] == d;
  }

  // ---------------------------------------------------------------- nothing is held for good

  lemma {:induction false} RunConcat(s: State, a: seq<Step>, b: seq<Step>)
    ensures Run(s, a + b) == Run(Run(s, a), b)
    decreases |a|
  {
    hide Exec;
    if a == [] {
      assert a + b == b;
    } else {
      assert (a + b)[1..] == a[1..] + b;
      RunConcat(Exec(s, a[0]), a[1..], b);
    }
  }

  /** Everybody at work may stop. */
  lemma {:induction false} EverybodyStops(s: State)
    ensures Reaches(s, State(s.db, map[]))
    decreases |s.txs|
  {
    hide Statement;
    if x :| x in s.txs {
      var t := s.(txs := s.txs - {x});
      assert Exec(s, Abort(x)) == t;
      EverybodyStops(t);
      var steps :| Run(t, steps) == State(s.db, map[]);
      var all := [Abort(x)] + steps;
      assert all[0] == Abort(x) && all[1..] == steps;
      assert Run(s, all) == State(s.db, map[]);
    } else {
      assert s == State(s.db, map[]);
      assert Run(s, []) == s;
    }
  }

  /** Wherever a run stands, whoever holds a counter and however they end, the next
      document can be issued, under the number after the last one committed. */
  lemma CanAlwaysIssue(steps: seq<Step>, ask: Ask, req: Request)
    requires var db := Run(START, steps).db;
             && Prepared(db.documents, ask) == Some((req.kind, req.body, req.corrects)) && req.whole == ask.CorrectWhole?
             && Issued(db, req, true).1.Ok? && !Issued(db, req, true).1.value.1
    ensures var s := Run(START, steps);
            exists z: Db ::
              && Reaches(s, State(z, map[]))
              && z.documents != [] && z.documents[|z.documents| - 1].req == req
              && z.documents[|z.documents| - 1].sequence == |Sequences(s.db.documents, req.year)| + 1
  {
    hide Run, Prepared, Sequences, Pointed;
    var s := Run(START, steps);
    var z := Issued(s.db, req, true).0;
    EverybodyStops(s);
    IssueIsRun(s.db, ask, req, true);
    var a :| Run(s, a) == State(s.db, map[]);
    var b :| Run(State(s.db, map[]), b) == State(z, map[]);
    RunConcat(s, a, b);
    NumbersHaveNoGaps(steps, req.year);
  }
}
