/**
 * backend/routes/expenseRoutes.js: the expense collection behind `/expenses`.
 *
 * The collection is a sequence of documents in insertion order (the order `find({})`
 * returns them in) with distinct ids. A route parameter that is not a valid
 * ObjectId is `None`: the lookup throws a cast error and the handler answers 500.
 */
module ExpenseRoutes {
  import opened Wrappers
  import opened Mongo
  import opened ExpenseSchema
  import opened Http
  import opened AuthMiddleware

  const NoExpenses := Response(404, NoticeBody("No expenses found"))
  const ExpenseNotFound := Response(404, NoticeBody("Expense not found"))
  const ServerError := Response(500, ErrorBody("Internal Server Error", None))

  predicate DistinctIds(docs: seq<Document>) {
    forall i, j :: 0 <= i < j < |docs| ==> docs[i].id != docs[j].id
  }

  /** `{ $set: body }`: every field the body names overwrites the stored one. */
  function Merge(current: Expense, update: Expense): Expense {
    Expense(
      if update.title.Some? then update.title else current.title,
      if update.amount.Some? then update.amount else current.amount,
      if update.category.Some? then update.category else current.category,
      if update.date.Some? then update.date else current.date)
  }

  /** Merging keeps what the body leaves out, takes what it names, and applying the same body twice changes nothing more. */
  lemma MergeProperties(current: Expense, update: Expense)
    ensures Merge(current, NoFields) == current
    ensures update.title.Some? ==> Merge(current, update).title == update.title
    ensures update.title.None? ==> Merge(current, update).title == current.title
    ensures update.amount.Some? ==> Merge(current, update).amount == update.amount
    ensures update.amount.None? ==> Merge(current, update).amount == current.amount
    ensures update.category.Some? ==> Merge(current, update).category == update.category
    ensures update.category.None? ==> Merge(current, update).category == current.category
    ensures update.date.Some? ==> Merge(current, update).date == update.date
    ensures update.date.None? ==> Merge(current, update).date == current.date
    ensures Merge(Merge(current, update), update) == Merge(current, update)
  {
  }

  /** `findByIdAndUpdate(id, { $set: update })` on the whole collection. */
  function Update(docs: seq<Document>, id: ObjectId, update: Expense): (r: seq<Document>)
    ensures |r| == |docs|
    ensures forall i :: 0 <= i < |docs| ==>
              r[i] == (if docs[i].id == id then Document(id, Merge(docs[i].expense, update)) else docs[i])
  {
    if docs == [] then []
    else
      var head := if docs[0].id == id then Document(id, Merge(docs[0].expense, update)) else docs[0];
      var rest := Update(docs[1..], id, update);
      assert forall i :: 1 <= i < |docs| ==> docs[i] == docs[1..][i - 1];
      [head] + rest
  }

  /** `findByIdAndDelete(id)` on the whole collection. */
  function Delete(docs: seq<Document>, id: ObjectId): (r: seq<Document>)
    ensures forall d :: d in r <==> d in docs && d.id != id
    ensures |r| <= |docs|
  {
    if docs == [] then []
    else if docs[0].id == id then Delete(docs[1..], id)
    else [docs[0]] + Delete(docs[1..], id)
  }

  /** With distinct ids, deleting the id of `docs[k]` removes exactly that position and keeps the rest in order. */
  lemma {:induction false} DeleteAt(docs: seq<Document>, k: nat)
    requires DistinctIds(docs) && k < |docs|
    ensures Delete(docs, docs[k].id) == docs[..k] + docs[k + 1..]
  {
    var id := docs[k].id;
    var tail := docs[1..];
    if k == 0 {
      assert forall i :: 0 <= i < |tail| ==> tail[i].id != id by {
        forall i | 0 <= i < |tail| ensures tail[i].id != id {
          assert tail[i] == docs[i + 1];
        }
      }
      DeleteAbsent(tail, id);
    } else {
      assert docs[0].id != id;
      assert DistinctIds(tail) by {
        forall i, j | 0 <= i < j < |tail| ensures tail[i].id != tail[j].id {
          assert tail[i] == docs[i + 1] && tail[j] == docs[j + 1];
        }
      }
      assert tail[k - 1] == docs[k];
      DeleteAt(tail, k - 1);
      assert Delete(docs, id) == [docs[0]] + (tail[..k - 1] + tail[k..]);
      assert tail[..k - 1] == docs[1..k];
      assert tail[k..] == docs[k + 1..];
      assert docs[..k] == [docs[0]] + docs[1..k];
    }
  }

  /** Deleting an id no document has leaves the collection as it was. */
  lemma {:induction false} DeleteAbsent(docs: seq<Document>, id: ObjectId)
    requires forall i :: 0 <= i < |docs| ==> docs[i].id != id
    ensures Delete(docs, id) == docs
  {
    if docs != [] {
      DeleteAbsent(docs[1..], id);
      assert docs == [docs[0]] + docs[1..];
    }
  }

  /** Deleting keeps ids distinct. */
  lemma {:induction false} DeleteKeepsDistinct(docs: seq<Document>, id: ObjectId)
    requires DistinctIds(docs)
    ensures DistinctIds(Delete(docs, id))
  {
    if docs != [] {
      DeleteKeepsDistinct(docs[1..], id);
      var rest := Delete(docs[1..], id);
      if docs[0].id != id {
        assert forall d :: d in rest ==> d in docs[1..];
        assert forall i :: 0 <= i < |rest| ==> rest[i].id != docs[0].id by {
          forall i | 0 <= i < |rest|
            ensures rest[i].id != docs[0].id
          {
            assert rest[i] in docs[1..];
          }
        }
        assert ([docs[0]] + rest)[1..] == rest;
      }
    }
  }

  // ---------------------------------------------------------------- routes

  /** The requests the router serves. */
  datatype Route =
    | ViewExpenses                                          // GET /view-expense
    | AddPage                                               // GET /add-expense
    | AddExpense(body: Expense)                             // POST /add-expense
    | GetExpense(id: Option<ObjectId>)                      // GET /:id/edit-expense
    | PutExpense(id: Option<ObjectId>, update: Expense)     // PUT /:id/edit-expense
    | DeleteExpense(id: Option<ObjectId>)                   // DELETE /:id/delete-expense

  datatype Served = Served(response: Option<Response>, docs: seq<Document>)

  /** What a handler answers and what the collection holds afterwards, once the request is past the guard; `newId` is the `_id` a created document gets. */
  function Serve(docs: seq<Document>, newId: ObjectId, route: Route): Served {
    match route
    case ViewExpenses =>
      if docs == [] then Served(Some(NoExpenses), docs) else Served(Some(Response(200, ExpenseListBody(docs))), docs)
    case AddPage => Served(None, docs)
    case AddExpense(body) =>
      var doc := Document(newId, body);
      Served(Some(Response(201, ExpenseBody(doc))), docs + [doc])
    case GetExpense(id) =>
      if id.None? then Served(Some(ServerError), docs)
      else (match FindById(docs, DocumentId, id.value)
        case None => Served(Some(ExpenseNotFound), docs)
        case Some(doc) => Served(Some(Response(200, ExpenseBody(doc))), docs))
    case PutExpense(id, update) =>
      if id.None? then Served(Some(ServerError), docs)
      else (match FindById(docs, DocumentId, id.value)
        case None => Served(Some(ExpenseNotFound), docs)
        case Some(doc) =>
          Served(Some(Response(200, ExpenseBody(Document(doc.id, Merge(doc.expense, update))))),
                 Update(docs, id.value, update)))
    case DeleteExpense(id) =>
      if id.None? then Served(Some(ServerError), docs)
      else match FindById(docs, DocumentId, id.value)
        case None => Served(Some(ExpenseNotFound), docs)
        case Some(doc) => Served(Some(Response(200, ExpenseBody(doc))), Delete(docs, id.value))
  }

  /** `GET /add-expense` is the one route without the guard. */
  predicate Guarded(route: Route) {
    !route.AddPage?
  }

  /** The whole router: the guard first (except on `GET /add-expense`), then the handler. */
  function Dispatch(docs: seq<Document>, newId: ObjectId, route: Route, header: Option<string>, secret: string): Served {
    if !Guarded(route) then Serve(docs, newId, route)
    else match Authenticate(header, secret)
      case Rejected(r) => Served(Some(r), docs)
      case Next(_) => Serve(docs, newId, route)
  }

  /** A guarded route without a valid token is answered by the guard and changes nothing; `GET /add-expense` never answers, whatever the header. */
  lemma GuardedRoutes(docs: seq<Document>, newId: ObjectId, route: Route, header: Option<string>, secret: string)
    ensures Guarded(route) <==> !route.AddPage?
    ensures Guarded(route) && Authenticate(header, secret).Rejected? ==>
              Dispatch(docs, newId, route, header, secret)
              == Served(Some(Authenticate(header, secret).response), docs)
    ensures Guarded(route) && BearerToken(header).None? ==>
              Dispatch(docs, newId, route, header, secret).response == Some(TokenRequired)
    ensures route.AddPage? ==> Dispatch(docs, newId, route, header, secret) == Served(None, docs)
  {
  }

  /** The list route: 404 exactly when the collection is empty, otherwise every document, whoever asks. */
  lemma ViewAll(docs: seq<Document>, newId: ObjectId, userId: ObjectId, otherId: ObjectId, secret: string)
    ensures var s := Serve(docs, newId, ViewExpenses);
            s.docs == docs && (s.response == Some(NoExpenses) <==> docs == [])
    ensures docs != [] ==> Serve(docs, newId, ViewExpenses).response == Some(Response(200, ExpenseListBody(docs)))
    ensures Dispatch(docs, newId, ViewExpenses, Some("Bearer " + GenerateToken(userId, secret)), secret)
            == Dispatch(docs, newId, ViewExpenses, Some("Bearer " + GenerateToken(otherId, secret)), secret)
  {
    GeneratedTokenAdmitted("Bearer", userId, secret);
    GeneratedTokenAdmitted("Bearer", otherId, secret);
    assert "Bearer " + GenerateToken(userId, secret) == "Bearer" + " " + GenerateToken(userId, secret);
    assert "Bearer " + GenerateToken(otherId, secret) == "Bearer" + " " + GenerateToken(otherId, secret);
  }

  /** Add appends exactly one document built from the body, under a fresh id, and answers 201 with it. */
  lemma AddInserts(docs: seq<Document>, newId: ObjectId, body: Expense)
    requires DistinctIds(docs) && forall i :: 0 <= i < |docs| ==> docs[i].id != newId
    ensures var s := Serve(docs, newId, AddExpense(body));
            && s.docs == docs + [Document(newId, body)]
            && s.response == Some(Response(201, ExpenseBody(Document(newId, body))))
            && DistinctIds(s.docs)
            && FindById(s.docs, DocumentId, newId) == Some(Document(newId, body))
  {
    FindByIdAppended(docs, DocumentId, Document(newId, body));
  }

  /** Reading one document never changes the collection; an absent id is 404, a malformed one 500. */
  lemma GetReadsOnly(docs: seq<Document>, newId: ObjectId, id: Option<ObjectId>)
    ensures Serve(docs, newId, GetExpense(id)).docs == docs
    ensures id.None? ==> Serve(docs, newId, GetExpense(id)).response == Some(ServerError)
    ensures id.Some? ==>
              (Serve(docs, newId, GetExpense(id)).response == Some(ExpenseNotFound)
               <==> forall i :: 0 <= i < |docs| ==> docs[i].id != id.value)
    ensures forall k :: 0 <= k < |docs| && DistinctIds(docs) && id == Some(docs[k].id) ==>
              Serve(docs, newId, GetExpense(id)).response == Some(Response(200, ExpenseBody(docs[k])))
  {
    forall k | 0 <= k < |docs| && DistinctIds(docs) && id == Some(docs[k].id)
      ensures Serve(docs, newId, GetExpense(id)).response == Some(Response(200, ExpenseBody(docs[k])))
    {
      FindAt(docs, k);
    }
  }

  /** With distinct ids, looking up the id at position `k` finds that document. */
  lemma FindAt(docs: seq<Document>, k: nat)
    requires DistinctIds(docs) && k < |docs|
    ensures FindById(docs, DocumentId, docs[k].id) == Some(docs[k])
  {
    var found := FindById(docs, DocumentId, docs[k].id).value;
    var j :| 0 <= j < |docs| && docs[j] == found;
  }

  /**
   * Editing the document at position `k` overwrites exactly the fields the body names
   * and answers 200 with the result; every other document stays where and as it was.
   * An absent id answers 404 and changes nothing.
   */
  lemma PutOverwrites(docs: seq<Document>, newId: ObjectId, k: nat, update: Expense)
    requires DistinctIds(docs) && k < |docs|
    ensures var s := Serve(docs, newId, PutExpense(Some(docs[k].id), update));
            && s.docs == docs[k := Document(docs[k].id, Merge(docs[k].expense, update))]
            && s.response == Some(Response(200, ExpenseBody(s.docs[k])))
            && DistinctIds(s.docs)
  {
    FindAt(docs, k);
    var s := Serve(docs, newId, PutExpense(Some(docs[k].id), update));
    assert s.docs == docs[k := Document(docs[k].id, Merge(docs[k].expense, update))];
  }

  lemma PutAbsent(docs: seq<Document>, newId: ObjectId, id: ObjectId, update: Expense)
    requires forall i :: 0 <= i < |docs| ==> docs[i].id != id
    ensures Serve(docs, newId, PutExpense(Some(id), update)) == Served(Some(ExpenseNotFound), docs)
  {
  }

  /** Deleting the document at position `k` removes exactly it, keeps the others in order and answers 200 with it; an absent id answers 404 and changes nothing. */
  lemma DeleteRemoves(docs: seq<Document>, newId: ObjectId, k: nat)
    requires DistinctIds(docs) && k < |docs|
    ensures var s := Serve(docs, newId, DeleteExpense(Some(docs[k].id)));
            && s.docs == docs[..k] + docs[k + 1..]
            && s.response == Some(Response(200, ExpenseBody(docs[k])))
            && DistinctIds(s.docs)
  {
    FindAt(docs, k);
    DeleteAt(docs, k);
    DeleteKeepsDistinct(docs, docs[k].id);
  }

  lemma DeleteMissing(docs: seq<Document>, newId: ObjectId, id: ObjectId)
    requires forall i :: 0 <= i < |docs| ==> docs[i].id != id
    ensures Serve(docs, newId, DeleteExpense(Some(id))) == Served(Some(ExpenseNotFound), docs)
  {
  }

  /** Every route keeps the ids distinct when the new id is fresh. */
  lemma ServeKeepsDistinct(docs: seq<Document>, newId: ObjectId, route: Route)
    requires DistinctIds(docs) && forall i :: 0 <= i < |docs| ==> docs[i].id != newId
    ensures DistinctIds(Serve(docs, newId, route).docs)
  {
    match route
    case AddExpense(body) => AddInserts(docs, newId, body);
    case PutExpense(id, update) =>
      if id.Some? && FindById(docs, DocumentId, id.value).Some? {
        var k :| 0 <= k < |docs| && docs[k] == FindById(docs, DocumentId, id.value).value;
        PutOverwrites(docs, newId, k, update);
      }
    case DeleteExpense(id) =>
      if id.Some? { DeleteKeepsDistinct(docs, id.value); }
    case _ =>
  }

  /** The expense collection, with the next fresh `_id`. */
  class ExpenseTable {
    var docs: seq<Document>
    var nextId: ObjectId

    ghost predicate Valid()
      reads this
    {
      DistinctIds(docs) && forall i :: 0 <= i < |docs| ==> docs[i].id < nextId
    }

    constructor ()
      ensures Valid() && docs == []
    {
      docs := [];
      nextId := 0;
    }

    /** `GET /view-expense`. */
    method View() returns (response: Response)
      ensures Serve(docs, nextId, ViewExpenses) == Served(Some(response), docs)
    {
      if |docs| == 0 {
        return NoExpenses;
      }
      response := Response(200, ExpenseListBody(docs));
    }

    /** `POST /add-expense`: `Expense.create(req.body)`. */
    method Add(body: Expense) returns (response: Response)
      requires Valid()
      modifies this
      ensures Valid() && nextId == old(nextId) + 1
      ensures Serve(old(docs), old(nextId), AddExpense(body)) == Served(Some(response), docs)
    {
      var doc := Document(nextId, body);
      AddInserts(docs, nextId, body);
      docs := docs + [doc];
      nextId := nextId + 1;
      response := Response(201, ExpenseBody(doc));
    }

    /** `GET /:id/edit-expense`. */
    method GetEdit(id: Option<ObjectId>) returns (response: Response)
      ensures Serve(docs, nextId, GetExpense(id)) == Served(Some(response), docs)
    {
      if id.None? {
        return ServerError;
      }
      var existing := FindById(docs, DocumentId, id.value);
      if existing.None? {
        return ExpenseNotFound;
      }
      response := Response(200, ExpenseBody(existing.value));
    }

    /** `PUT /:id/edit-expense`. */
    method PutEdit(id: Option<ObjectId>, update: Expense) returns (response: Response)
      requires Valid()
      modifies this
      ensures Valid() && nextId == old(nextId)
      ensures Serve(old(docs), old(nextId), PutExpense(id, update)) == Served(Some(response), docs)
    {
      ServeKeepsDistinct(docs, nextId, PutExpense(id, update));
      if id.None? {
        return ServerError;
      }
      var existing := FindById(docs, DocumentId, id.value);
      if existing.None? {
        return ExpenseNotFound;
      }
      docs := Update(docs, id.value, update);
      response := Response(200, ExpenseBody(Document(existing.value.id, Merge(existing.value.expense, update))));
    }

    /** `DELETE /:id/delete-expense`. */
    method DeleteById(id: Option<ObjectId>) returns (response: Response)
      requires Valid()
      modifies this
      ensures Valid() && nextId == old(nextId)
      ensures Serve(old(docs), old(nextId), DeleteExpense(id)) == Served(Some(response), docs)
    {
      ServeKeepsDistinct(docs, nextId, DeleteExpense(id));
      if id.None? {
        return ServerError;
      }
      var existing := FindById(docs, DocumentId, id.value);
      if existing.None? {
        return ExpenseNotFound;
      }
      docs := Delete(docs, id.value);
      response := Response(200, ExpenseBody(existing.value));
    }

    /** One request through the router: `authenticateToken` first on every guarded route, then the handler if `next()` ran. */
    method Handle(ex: Exchange, route: Route, secret: string)
      requires Valid() && ex.response.None? && ex.nextCalls == 0
      modifies this, ex
      ensures Valid()
      ensures Dispatch(old(docs), old(nextId), route, ex.authorization, secret) == Served(ex.response, docs)
    {
      if route.AddPage? {
        // the handler only logs and never answers
        return;
      }
      ex.AuthenticateToken(secret);
      if ex.nextCalls == 0 {
        return;
      }
      var response;
      match route {
        case ViewExpenses => response := View();
        case AddExpense(body) => response := Add(body);
        case GetExpense(id) => response := GetEdit(id);
        case PutExpense(id, update) => response := PutEdit(id, update);
        case DeleteExpense(id) => response := DeleteById(id);
      }
      ex.response := Some(response);
    }
  }
}
