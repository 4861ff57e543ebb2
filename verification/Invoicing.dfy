/** Issuing documents: numbers without gaps, under concurrent transactions, rollbacks
    at any point and requests sent again. */
module Invoicing {
  // One tenant's documents. A transaction looks for the document its key already made,
  // takes the next number of the year (and with it the counter row, until it ends),
  // writes the document, and commits; it may be rolled back before any of these.
  // Statements read what is committed and what the transaction wrote itself.

  import opened Common
  import opened Documents
  import N = Numbering

  type TxId = nat
  type DocId = nat

  datatype Kind = Invoice | Receipt | SubscriptionInvoice | CreditNote

  /** What is to be issued, ready but for its number. `whole` marks the credit note of a
      whole document. */
  datatype Request = Request(
    id: DocId,
    kind: Kind,
    body: Body,
    year: int,
    key: string,            // idempotency key; "" is none
    code: string,           // the merchant's
    corrects: Option<DocId>,
    whole: bool)

  datatype Doc = Doc(req: Request, sequence: int, number: string, correctedBy: Option<DocId>)

  datatype Db = Db(counters: map<int, int>, documents: seq<Doc>)

  datatype Phase =
    | Begun
    | Looked
    | Numbered(sequence: int)
    | Inserted(doc: Doc)
    | Answered(doc: Doc)

  datatype Tx = Tx(req: Request, phase: Phase)

  datatype State = State(db: Db, txs: map<TxId, Tx>)

  datatype Outcome = Blocked | RolledBack | Proceed(tx: Tx)

  // ------------------------------------------------------------------------- statements

  function Next(db: Db, year: int): int {
    if year in db.counters then db.counters[year] else 1
  }

  function ByKey(docs: seq<Doc>, key: string): Option<Doc> {
    if docs == [] then None
    else if docs[|docs| - 1].req.key == key then Some(docs[|docs| - 1])
    else ByKey(docs[..|docs| - 1], key)
  }

  function ById(docs: seq<Doc>, id: DocId): Option<Doc> {
    if docs == [] then None
    else if docs[|docs| - 1].req.id == id then Some(docs[|docs| - 1])
    else ById(docs[..|docs| - 1], id)
  }

  /** Two documents no table could hold together. */
  predicate Clash(a: Doc, b: Doc) {
    || a.req.id == b.req.id
    || a.number == b.number
    || (a.req.key != "" && a.req.key == b.req.key)
    || (a.req.corrects.Some? && a.req.corrects == b.req.corrects)
  }

  predicate Clashes(docs: seq<Doc>, d: Doc) {
    exists i :: 0 <= i < |docs| && Clash(docs[i], d)
  }

  /** The year whose counter row a transaction holds. */
  function Held(tx: Tx): Option<int> {
    match tx.phase
    case Numbered(_) => Some(tx.req.year)
    case Inserted(_) => Some(tx.req.year)
    case _ => None
  }

  predicate YearHeld(txs: map<TxId, Tx>, x: TxId, year: int) {
    exists y :: y in txs && y != x && Held(txs[y]) == Some(year)
  }

  /** A row not yet committed that an insert would have to wait for. */
  predicate RowHeld(txs: map<TxId, Tx>, x: TxId, d: Doc) {
    exists y :: y in txs && y != x && txs[y].phase.Inserted? && Clash(txs[y].phase.doc, d)
  }

  function Finished(req: Request, sequence: int): Result<Doc, N.Error> {
    match N.Format(req.year, req.code, sequence)
    case Err(e) => Err(e)
    case Ok(number) => Ok(Doc(req, sequence, number, None))
  }

  /** The next statement of a transaction. `rendered` is whether the document could be
      finished once its number was known. */
  ghost function Statement(s: State, x: TxId, rendered: bool): Outcome
    requires x in s.txs
  {
    var tx := s.txs[x];
    match tx.phase
    case Begun =>
      var was := ByKey(s.db.documents, tx.req.key);
      if tx.req.key != "" && was.Some? then Proceed(tx.(phase := Answered(was.value)))
      else Proceed(tx.(phase := Looked))
    case Looked =>
      if YearHeld(s.txs, x, tx.req.year) then Blocked
      else Proceed(tx.(phase := Numbered(Next(s.db, tx.req.year))))
    case Numbered(sequence) =>
      if !rendered then RolledBack
      else
        var doc := Finished(tx.req, sequence);
        if doc.Err? then RolledBack
        else if RowHeld(s.txs, x, doc.value) then Blocked
        else if Clashes(s.db.documents, doc.value) then RolledBack
        else Proceed(tx.(phase := Inserted(doc.value)))
    case Inserted(_) => Blocked
    case Answered(_) => Blocked
  }

  function Pointed1(d: Doc, note: Doc): Doc {
    if note.req.corrects == Some(d.req.id) then d.(correctedBy := Some(note.req.id)) else d
  }

  /** The original of a credit note gains its pointer. */
  function Pointed(docs: seq<Doc>, note: Doc): (r: seq<Doc>)
    ensures |r| == |docs|
    ensures forall i :: 0 <= i < |docs| ==> r[i] == Pointed1(docs[i], note)
  {
    seq(|docs|, i requires 0 <= i < |docs| => Pointed1(docs[i], note))
  }

  function Committed(db: Db, tx: Tx): Db {
    if tx.phase.Inserted? then
      var d := tx.phase.doc;
      Db(db.counters[tx.req.year := d.sequence + 1], Pointed(db.documents, d) + [d])
    else db
  }

  // ------------------------------------------------------------------------------- runs

  /** What is asked for. Everything but the first names where the body comes from. */
  datatype Ask =
    | Sell(kind: Kind, lines: seq<Asked>)
    | CorrectWhole(original: DocId)
    | CorrectPart(original: DocId, lines: seq<Asked>)
    | Bill(amount: int)

  predicate Correctable(d: Doc) { d.correctedBy.None? && d.req.kind != CreditNote }

  /** The kind, the body and what is corrected, from a read of the committed documents;
      None when the request is refused before anything is written. */
  function Prepared(docs: seq<Doc>, ask: Ask): Option<(Kind, Body, Option<DocId>)> {
    match ask
    case Sell(kind, lines) =>
      var b := Built(lines);
      if kind == CreditNote || lines == [] || b.Err? then None else Some((kind, b.value, None))
    case CorrectWhole(id) =>
      var o := ById(docs, id);
      if o.None? || !Correctable(o.value) then None
      else Some((CreditNote, Credited(o.value.req.body), Some(id)))
    case CorrectPart(id, lines) =>
      var o, b := ById(docs, id), Built(lines);
      if o.None? || !Correctable(o.value) || lines == [] || b.Err? || b.value.gross > o.value.req.body.gross then None
      else Some((CreditNote, b.value, Some(id)))
    case Bill(amount) =>
      Some((SubscriptionInvoice, Body([Line(1, amount, amount, 0, amount, 0)], amount, 0, amount), None))
  }

  datatype Step =
    | Begin(x: TxId, ask: Ask, id: DocId, year: int, key: string, code: string)
    | Advance(x: TxId, rendered: bool)
    | Commit(x: TxId)
    | Abort(x: TxId)

  ghost function Exec(s: State, step: Step): State {
    match step
    case Begin(x, ask, id, year, key, code) =>
      var p := Prepared(s.db.documents, ask);
      if x in s.txs || p.None? then s
      else
        var req := Request(id, p.value.0, p.value.1, year, key, code, p.value.2, ask.CorrectWhole?);
        s.(txs := s.txs[x := Tx(req, Begun)])
    case Advance(x, rendered) =>
      if x !in s.txs then s
      else (match Statement(s, x, rendered)
            case Blocked => s
            case RolledBack => s.(txs := s.txs - {x})
            case Proceed(tx) => s.(txs := s.txs[x := tx]))
    case Commit(x) =>
      if x in s.txs && (s.txs[x].phase.Inserted? || s.txs[x].phase.Answered?)
      then State(Committed(s.db, s.txs[x]), s.txs - {x})
      else s
    case Abort(x) => s.(txs := s.txs - {x})
  }

  /** Others make a transaction wait and do nothing else to it: it is refused, and goes on,
      exactly as it would be alone, where it never waits. */
  lemma OthersOnlyDelay(s: State, x: TxId, rendered: bool)
    requires x in s.txs
    ensures var alone := State(s.db, map[x := s.txs[x]]);
            var next, t := Exec(alone, Advance(x, rendered)), Exec(s, Advance(x, rendered));
            && (t == s || t == State(s.db, (s.txs - {x}) + next.txs))
            && (next == alone <==> s.txs[x].phase.Inserted? || s.txs[x].phase.Answered?)
  {
    hide ByKey, Clash, Clashes, Finished, Next;
    assert map[x := s.txs[x]] - {x} == map[];
  }

  ghost function Run(s: State, steps: seq<Step>): State
    decreases |steps|
  {
    if steps == [] then s else Run(Exec(s, steps[0]), steps[1..])
  }

  const START := State(Db(map[], []), map[])

  // -------------------------------------------------------------------------- invariant

  /** The sequences of one year's documents, in the order they were committed. */
  function Sequences(docs: seq<Doc>, year: int): seq<int> {
    if docs == [] then []
    else
      var d := docs[|docs| - 1];
      var init := Sequences(docs[..|docs| - 1], year);
      if d.req.year == year then init + [d.sequence] else init
  }

  predicate Counts(s: seq<int>) {
    forall i :: 0 <= i < |s| ==> s[i] == i + 1
  }

  predicate GaplessYear(db: Db, year: int) {
    Counts(Sequences(db.documents, year)) && Next(db, year) == |Sequences(db.documents, year)| + 1
  }

  ghost predicate Gapless(db: Db) {
    forall year: int :: GaplessYear(db, year)
  }

  /** A transaction with a number has the one its counter stands at, and no other
      transaction has that counter. */
  predicate HasNext(db: Db, tx: Tx) {
    match tx.phase
    case Numbered(sequence) => sequence == Next(db, tx.req.year)
    case Inserted(doc) => doc.sequence == Next(db, tx.req.year) && doc.req == tx.req && doc.correctedBy.None?
    case _ => true
  }

  predicate NumbersHeld(db: Db, txs: map<TxId, Tx>) {
    forall x :: x in txs ==> HasNext(db, txs[x])
  }

  predicate Apart(a: Tx, b: Tx) { Held(a).Some? ==> Held(a) != Held(b) }

  predicate YearsApart(txs: map<TxId, Tx>) {
    forall x, y :: x in txs && y in txs && x != y ==> Apart(txs[x], txs[y])
  }

  predicate Unique(docs: seq<Doc>) {
    forall i, j :: 0 <= i < j < |docs| ==> !Clash(docs[i], docs[j])
  }

  predicate PendingClear(docs: seq<Doc>, txs: map<TxId, Tx>) {
    forall x :: x in txs && txs[x].phase.Inserted? ==> !Clashes(docs, txs[x].phase.doc)
  }

  predicate PendingApart(txs: map<TxId, Tx>) {
    forall x, y :: x in txs && y in txs && x != y && txs[x].phase.Inserted? && txs[y].phase.Inserted? ==>
      !Clash(txs[x].phase.doc, txs[y].phase.doc)
  }

  lemma ClashSymmetric(a: Doc, b: Doc)
    ensures Clash(a, b) <==> Clash(b, a)
  {
  }

  ghost predicate Inv(s: State) {
    && Gapless(s.db)
    && NumbersHeld(s.db, s.txs)
    && YearsApart(s.txs)
    && Unique(s.db.documents)
    && PendingClear(s.db.documents, s.txs)
    && PendingApart(s.txs)
  }

  // ---- a statement keeps it ----

  lemma AdvanceKeepsLocks(s: State, x: TxId, rendered: bool)
    requires x in s.txs && Statement(s, x, rendered).Proceed?
    requires NumbersHeld(s.db, s.txs) && YearsApart(s.txs)
    ensures var txs := s.txs[x := Statement(s, x, rendered).tx];
            NumbersHeld(s.db, txs) && YearsApart(txs)
  {
    hide Clashes, RowHeld, ByKey, N.Format;
    var tx := Statement(s, x, rendered).tx;
    var txs := s.txs[x := tx];
    assert HasNext(s.db, s.txs[x]);
    forall y, z | y in txs && z in txs && y != z
      ensures Apart(txs[y], txs[z])
    {
      assert y != x && z != x ==> Apart(s.txs[y], s.txs[z]);
      assert y == x ==> Apart(s.txs[x], s.txs[z]);
      assert z == x ==> Apart(s.txs[y], s.txs[x]);
    }
  }

  lemma AdvanceKeepsPending(s: State, x: TxId, rendered: bool)
    requires x in s.txs && Statement(s, x, rendered).Proceed?
    requires PendingClear(s.db.documents, s.txs) && PendingApart(s.txs)
    ensures var txs := s.txs[x := Statement(s, x, rendered).tx];
            PendingClear(s.db.documents, txs) && PendingApart(txs)
  {
    hide Clash, ByKey, N.Format, Clashes, YearHeld;
    var txs := s.txs[x := Statement(s, x, rendered).tx];
    forall y, z | y in txs && z in txs && y != z && txs[y].phase.Inserted? && txs[z].phase.Inserted?
      ensures !Clash(txs[y].phase.doc, txs[z].phase.doc)
    {
      ClashSymmetric(txs[y].phase.doc, txs[z].phase.doc);
    }
  }

  // ---- a commit keeps it ----

  lemma {:induction false} SequencesPointed(docs: seq<Doc>, note: Doc, year: int)
    ensures Sequences(Pointed(docs, note), year) == Sequences(docs, year)
  {
    if docs != [] {
      var n := |docs| - 1;
      SequencesPointed(docs[..n], note, year);
      assert Pointed(docs, note)[..n] == Pointed(docs[..n], note);
    }
  }

  lemma SequencesAppend(docs: seq<Doc>, d: Doc, year: int)
    ensures Sequences(docs + [d], year) == Sequences(docs, year) + if d.req.year == year then [d.sequence] else []
  {
    assert (docs + [d])[..|docs|] == docs;
  }

  lemma CommitKeepsGapless(db: Db, tx: Tx)
    requires Gapless(db) && HasNext(db, tx) && tx.phase.Inserted?
    ensures Gapless(Committed(db, tx))
  {
    hide Sequences;
    var after, d := Committed(db, tx), tx.phase.doc;
    forall year: int
      ensures GaplessYear(after, year)
    {
      assert GaplessYear(db, year);
      SequencesPointed(db.documents, d, year);
      SequencesAppend(Pointed(db.documents, d), d, year);
    }
  }

  lemma DropKeeps(s: State, x: TxId)
    requires Inv(s)
    ensures Inv(s.(txs := s.txs - {x}))
  {
    hide Gapless, HasNext, Apart, Clash, Clashes, Unique;
  }

  lemma BeginKeeps(s: State, x: TxId, req: Request)
    requires Inv(s) && x !in s.txs
    ensures Inv(s.(txs := s.txs[x := Tx(req, Begun)]))
  {
    hide Gapless, Clash, Clashes, Unique, Next;
  }

  lemma ExecKeepsInv(s: State, step: Step)
    requires Inv(s)
    ensures Inv(Exec(s, step))
  {
    hide Gapless, NumbersHeld, YearsApart, Unique, PendingClear, PendingApart, Statement, Committed, Prepared;
    match step
    case Begin(x, ask, id, year, key, code) =>
      var p := Prepared(s.db.documents, ask);
      if x !in s.txs && p.Some? {
        BeginKeeps(s, x, Request(id, p.value.0, p.value.1, year, key, code, p.value.2, ask.CorrectWhole?));
      }
    case Advance(x, rendered) =>
      if x in s.txs {
        match Statement(s, x, rendered)
        case Blocked =>
        case RolledBack => DropKeeps(s, x);
        case Proceed(_) =>
          AdvanceKeepsLocks(s, x, rendered);
          AdvanceKeepsPending(s, x, rendered);
      }
    case Commit(x) =>
      if x in s.txs && s.txs[x].phase.Inserted? {
        CommitKeeps(s, x);
      } else {
        DropKeeps(s, x);
        NothingCommitted(s, x);
      }
    case Abort(x) =>
      DropKeeps(s, x);
  }

  lemma NothingCommitted(s: State, x: TxId)
    requires x in s.txs ==> !s.txs[x].phase.Inserted?
    ensures x in s.txs ==> Committed(s.db, s.txs[x]) == s.db
  {
  }

  lemma CommitKeeps(s: State, x: TxId)
    requires Inv(s) && x in s.txs && s.txs[x].phase.Inserted?
    ensures Inv(State(Committed(s.db, s.txs[x]), s.txs - {x}))
  {
    assert HasNext(s.db, s.txs[x]);
    assert !Clashes(s.db.documents, s.txs[x].phase.doc);
    hide Gapless, NumbersHeld, YearsApart, Unique, PendingClear, PendingApart, Pointed, Clashes, HasNext;
    CommitKeepsGapless(s.db, s.txs[x]);
  }

  lemma {:induction false} RunKeepsInv(s: State, steps: seq<Step>)
    requires Inv(s)
    ensures Inv(Run(s, steps))
    decreases |steps|
  {
    hide Inv;
    if steps != [] {
      ExecKeepsInv(s, steps[0]);
      RunKeepsInv(Exec(s, steps[0]), steps[1..]);
    }
  }

  /** After any run, in every year the committed documents are numbered 1, 2, 3 and so
      on in the order they were committed, and the counter stands at the next: no gap
      and no repeat, whatever was rolled back or asked for again. */
  lemma NumbersHaveNoGaps(steps: seq<Step>, year: int)
    ensures var db := Run(START, steps).db;
            var n := Sequences(db.documents, year);
            && Next(db, year) == |n| + 1
            && forall i :: 0 <= i < |n| ==> n[i] == i + 1
  {
    RunKeepsInv(START, steps);
    assert GaplessYear(Run(START, steps).db, year);
  }

  /** One document a key, one credit note a document, and no two of one number. */
  lemma NothingTwice(steps: seq<Step>, i: nat, j: nat)
    requires i < j < |Run(START, steps).db.documents|
    ensures var a, b := Run(START, steps).db.documents[i], Run(START, steps).db.documents[j];
            && a.number != b.number
            && (a.req.key == b.req.key ==> a.req.key == "")
            && (a.req.corrects == b.req.corrects ==> a.req.corrects.None?)
  {
    hide Run;
    RunKeepsInv(START, steps);
    assert !Clash(Run(START, steps).db.documents[i], Run(START, steps).db.documents[j]);
  }

  // --------------------------------------------------------------------------- progress

  predicate CanCommit(tx: Tx) { tx.phase.Inserted? || tx.phase.Answered? }

  /** Some transaction can always take a step or commit: waiting never closes a circle. */
  lemma SomebodyCanMove(s: State)
    requires s.txs != map[]
    ensures exists x :: x in s.txs && (CanCommit(s.txs[x]) || !Statement(s, x, true).Blocked?)
  {
    hide ByKey, Clash, Clashes, Next, N.Format;
    if x :| x in s.txs && CanCommit(s.txs[x]) {
    } else if x :| x in s.txs && s.txs[x].phase.Numbered? {
    } else {
      var x :| x in s.txs.Keys;
    }
  }

  // ----------------------------------------------------- what the documents say, and point at

  predicate Stamped(d: Doc) { N.Format(d.req.year, d.req.code, d.sequence) == Ok(d.number) }

  /** The original of a request that corrects one. */
  predicate IsOriginal(o: Doc, req: Request) {
    && req.corrects == Some(o.req.id)
    && o.req.kind != CreditNote
    && (req.whole ==> req.body == Credited(o.req.body))
  }

  predicate HasOriginal(docs: seq<Doc>, req: Request) {
    exists i :: 0 <= i < |docs| && IsOriginal(docs[i], req)
  }

  predicate ReqSound(docs: seq<Doc>, req: Request) {
    && Sound(req.body)
    && (req.kind == CreditNote <==> req.corrects.Some?)
    && (req.corrects.Some? ==> HasOriginal(docs, req))
  }

  predicate DocsSound(docs: seq<Doc>) {
    forall i :: 0 <= i < |docs| ==> ReqSound(docs, docs[i].req) && Stamped(docs[i])
  }

  predicate TxsSound(docs: seq<Doc>, txs: map<TxId, Tx>) {
    forall x :: x in txs ==>
      ReqSound(docs, txs[x].req) && (txs[x].phase.Inserted? ==> Stamped(txs[x].phase.doc))
  }

  predicate Points(docs: seq<Doc>, i: int, j: int)
    requires 0 <= i < |docs| && 0 <= j < |docs|
  {
    docs[j].req.corrects == Some(docs[i].req.id)
  }

  predicate PointersAgree(docs: seq<Doc>) {
    && (forall i, j :: 0 <= i < |docs| && 0 <= j < |docs| && Points(docs, i, j) ==> docs[i].correctedBy == Some(docs[j].req.id))
    && (forall i :: 0 <= i < |docs| && docs[i].correctedBy.Some? ==> exists j :: 0 <= j < |docs| && Points(docs, i, j))
  }

  ghost predicate Content(s: State) {
    DocsSound(s.db.documents) && TxsSound(s.db.documents, s.txs) && PointersAgree(s.db.documents)
  }

  lemma {:induction false} ByIdFinds(docs: seq<Doc>, id: DocId)
    ensures ById(docs, id).Some? ==> exists i :: 0 <= i < |docs| && docs[i] == ById(docs, id).value && docs[i].req.id == id
  {
    if docs != [] && docs[|docs| - 1].req.id != id {
      var init := docs[..|docs| - 1];
      ByIdFinds(init, id);
      assert forall i :: 0 <= i < |init| ==> init[i] == docs[i];
    }
  }

  lemma BillIsSound(amount: int)
    ensures Sound(Body([Line(1, amount, amount, 0, amount, 0)], amount, 0, amount))
  {
    hide Sound;
    var l := Line(1, amount, amount, 0, amount, 0);
    NothingIsSound();
    AddedIsSound(NOTHING, l);
    assert Added(NOTHING, l).lines == [l];
  }

  lemma PreparedIsSound(docs: seq<Doc>, ask: Ask, req: Request)
    requires DocsSound(docs) && Prepared(docs, ask).Some?
    requires (req.kind, req.body, req.corrects) == Prepared(docs, ask).value && req.whole == ask.CorrectWhole?
    ensures ReqSound(docs, req)
  {
    hide Sound, Built, Stamped, Credited;
    match ask
    case Sell(_, lines) =>
      BuiltIsSound(lines);
    case CorrectWhole(id) =>
      ByIdFinds(docs, id);
      var i :| 0 <= i < |docs| && docs[i] == ById(docs, id).value && docs[i].req.id == id;
      CreditedIsSound(docs[i].req.body);
      assert IsOriginal(docs[i], req);
    case CorrectPart(id, lines) =>
      ByIdFinds(docs, id);
      var i :| 0 <= i < |docs| && docs[i] == ById(docs, id).value && docs[i].req.id == id;
      BuiltIsSound(lines);
      assert IsOriginal(docs[i], req);
    case Bill(amount) =>
      BillIsSound(amount);
  }

  lemma ReqSoundGrows(docs: seq<Doc>, d: Doc, req: Request)
    requires ReqSound(docs, req)
    ensures ReqSound(Pointed(docs, d) + [d], req)
  {
    hide Sound, Credited;
    var after := Pointed(docs, d) + [d];
    if req.corrects.Some? {
      var i :| 0 <= i < |docs| && IsOriginal(docs[i], req);
      assert IsOriginal(after[i], req);
    }
  }

  lemma CommitKeepsPointers(docs: seq<Doc>, d: Doc)
    requires PointersAgree(docs) && !Clashes(docs, d)
    requires DocsSound(docs) && ReqSound(docs, d.req) && d.correctedBy.None?
    ensures PointersAgree(Pointed(docs, d) + [d])
  {
    hide Sound, Credited, Stamped;
    var n := |docs|;
    var after := Pointed(docs, d) + [d];
    forall i, j | 0 <= i < |after| && 0 <= j < |after| && Points(after, i, j)
      ensures after[i].correctedBy == Some(after[j].req.id)
    {
      if i == n {
      } else if j < n {
        assert Points(docs, i, j);
        assert !Clash(docs[j], d);
      }
    }
    forall i | 0 <= i < |after| && after[i].correctedBy.Some?
      ensures exists j :: 0 <= j < |after| && Points(after, i, j)
    {
      if d.req.corrects == Some(docs[i].req.id) {
        assert Points(after, i, n);
      } else {
        assert docs[i].correctedBy.Some?;
        var j :| 0 <= j < n && Points(docs, i, j);
        assert Points(after, i, j);
      }
    }
  }

  lemma CommitKeepsContent(s: State, x: TxId)
    requires Inv(s) && Content(s) && x in s.txs && s.txs[x].phase.Inserted?
    ensures Content(State(Committed(s.db, s.txs[x]), s.txs - {x}))
  {
    var docs, d := s.db.documents, s.txs[x].phase.doc;
    assert HasNext(s.db, s.txs[x]);
    assert !Clashes(docs, d);
    hide Sound, ReqSound, Stamped, PointersAgree, Clashes, Inv;
    CommitKeepsPointers(docs, d);
    forall req | ReqSound(docs, req)
      ensures ReqSound(Pointed(docs, d) + [d], req)
    {
      ReqSoundGrows(docs, d, req);
    }
    forall i | 0 <= i < |docs|
      ensures Stamped(Pointed(docs, d)[i])
    {
    }
  }

  lemma AdvanceKeepsContent(s: State, x: TxId, rendered: bool)
    requires Content(s) && x in s.txs && Statement(s, x, rendered).Proceed?
    ensures Content(s.(txs := s.txs[x := Statement(s, x, rendered).tx]))
  {
    hide ReqSound, ByKey, Clashes, RowHeld, YearHeld, PointersAgree, DocsSound, Next;
    assert ReqSound(s.db.documents, s.txs[x].req);
  }

  lemma ExecKeepsContent(s: State, step: Step)
    requires Inv(s) && Content(s)
    ensures Content(Exec(s, step))
  {
    hide Inv, DocsSound, PointersAgree, ReqSound, Stamped, Statement, Committed, Prepared;
    match step
    case Begin(x, ask, id, year, key, code) =>
      var p := Prepared(s.db.documents, ask);
      if x !in s.txs && p.Some? {
        PreparedIsSound(s.db.documents, ask, Request(id, p.value.0, p.value.1, year, key, code, p.value.2, ask.CorrectWhole?));
      }
    case Advance(x, rendered) =>
      if x in s.txs && Statement(s, x, rendered).Proceed? {
        AdvanceKeepsContent(s, x, rendered);
      }
    case Commit(x) =>
      if x in s.txs && s.txs[x].phase.Inserted? {
        CommitKeepsContent(s, x);
      } else {
        NothingCommitted(s, x);
      }
    case Abort(x) =>
  }

  lemma {:induction false} RunKeepsContent(s: State, steps: seq<Step>)
    requires Inv(s) && Content(s)
    ensures Content(Run(s, steps))
    decreases |steps|
  {
    hide Inv, Content;
    if steps != [] {
      ExecKeepsInv(s, steps[0]);
      ExecKeepsContent(s, steps[0]);
      RunKeepsContent(Exec(s, steps[0]), steps[1..]);
    }
  }

  lemma RunContent(steps: seq<Step>)
    ensures Content(Run(START, steps)) && Inv(Run(START, steps))
  {
    hide Run;
    assert Content(START);
    RunKeepsContent(START, steps);
    RunKeepsInv(START, steps);
  }

  /** Every stored document has lines that add up, totals that are their sums, and the
      number its year, code and sequence make. */
  lemma DocumentsAddUp(steps: seq<Step>, i: nat)
    requires i < |Run(START, steps).db.documents|
    ensures var d := Run(START, steps).db.documents[i];
            Sound(d.req.body) && N.Format(d.req.year, d.req.code, d.sequence) == Ok(d.number)
  {
    hide Run, Inv, Sound;
    RunContent(steps);
  }

  /** A document says it is corrected exactly when a credit note says it corrects it;
      each names the other, and no credit note is itself corrected. */
  lemma PointersPair(steps: seq<Step>, i: nat)
    requires i < |Run(START, steps).db.documents|
    ensures var docs := Run(START, steps).db.documents;
            && (docs[i].correctedBy.Some? <==> exists j :: 0 <= j < |docs| && Points(docs, i, j))
            && (forall j :: 0 <= j < |docs| && Points(docs, i, j) ==>
                  docs[i].correctedBy == Some(docs[j].req.id) && docs[j].req.kind == CreditNote && docs[i].req.kind != CreditNote)
  {
    hide Run, Sound, Stamped, Gapless;
    RunContent(steps);
    var docs := Run(START, steps).db.documents;
    forall j | 0 <= j < |docs| && Points(docs, i, j)
      ensures docs[j].req.kind == CreditNote && docs[i].req.kind != CreditNote
    {
      OriginalIs(docs, i, j);
    }
  }

  lemma OriginalIs(docs: seq<Doc>, i: nat, j: nat)
    requires Unique(docs) && DocsSound(docs) && i < |docs| && j < |docs| && Points(docs, i, j)
    ensures IsOriginal(docs[i], docs[j].req) && docs[j].req.kind == CreditNote
  {
    hide Sound, Stamped;
    assert ReqSound(docs, docs[j].req);
    var k :| 0 <= k < |docs| && IsOriginal(docs[k], docs[j].req);
    assert Clash(docs[k], docs[i]) && Clash(docs[i], docs[k]);
  }

  /** The credit note of a whole document and the document it corrects come to nothing. */
  lemma WholeCreditCancels(steps: seq<Step>, i: nat, j: nat)
    requires var docs := Run(START, steps).db.documents;
             i < |docs| && j < |docs| && Points(docs, i, j) && docs[j].req.whole
    ensures var a, b := Run(START, steps).db.documents[i].req.body, Run(START, steps).db.documents[j].req.body;
            && a.net + b.net == 0 && a.tax + b.tax == 0 && a.gross + b.gross == 0
            && Grosses(a.lines + b.lines) == 0
  {
    hide Run, Stamped, Gapless;
    RunContent(steps);
    var docs := Run(START, steps).db.documents;
    OriginalIs(docs, i, j);
    assert ReqSound(docs, docs[i].req);
    CreditCancels(docs[i].req.body);
  }

  // ---- the number check never stands in the way ----

  lemma {:induction false} SequenceListed(docs: seq<Doc>, i: nat)
    requires i < |docs|
    ensures docs[i].sequence in Sequences(docs, docs[i].req.year)
  {
    var n := |docs| - 1;
    if i < n {
      SequenceListed(docs[..n], i);
    }
  }

  /** A document finished with the number it holds has a number no committed document
      has: an insert is never refused for its number. */
  lemma NumberIsFree(s: State, x: TxId, i: nat)
    requires Inv(s) && Content(s) && x in s.txs && s.txs[x].phase.Numbered? && i < |s.db.documents|
    requires Finished(s.txs[x].req, s.txs[x].phase.sequence).Ok?
    ensures Finished(s.txs[x].req, s.txs[x].phase.sequence).value.number != s.db.documents[i].number
  {
    var req, d := s.txs[x].req, s.db.documents[i];
    assert HasNext(s.db, s.txs[x]);
    assert GaplessYear(s.db, req.year);
    assert Stamped(d);
    hide N.Format, Inv, Content, Sequences;
    SequenceListed(s.db.documents, i);
    if N.Format(req.year, req.code, s.txs[x].phase.sequence) == N.Format(d.req.year, d.req.code, d.sequence) {
      N.FormatIsInjective(req.year, req.code, s.txs[x].phase.sequence, d.req.year, d.req.code, d.sequence);
    }
  }
}
