/**
 * The request handlers of the portfolios controller, over the table. Each
 * handler answers with a status and a body; the random id and the clock
 * readings are parameters.
 */
module PortfoliosController {
  import opened Wrappers
  import opened PortfolioModel
  import opened DocumentTable
  import opened UpdateExpression
  import opened Skills

  /** A JSON response body. */
  datatype Body =
    | Record(portfolio: Portfolio)
    | Records(portfolios: seq<Portfolio>)
    | SkillList(skills: seq<string>)
    | Message(message: string)
    | NoContent

  datatype Response = Response(status: int, body: Body)

  /** The answer for an id the table does not hold. */
  function NotFound(): Response {
    Response(404, Message("Portfolio not found"))
  }

  /** GET /portfolios: every stored item, an empty list when there is none. */
  method GetAllPortfolios(table: Table) returns (resp: Response)
    requires table.Valid()
    ensures resp.status == 200 && resp.body.Records?
    ensures ScanOf(resp.body.portfolios, table.items) && |resp.body.portfolios| == |table.items|
    ensures table.items == map[] ==> resp.body.portfolios == []
  {
    var items := table.Scan();
    resp := Response(200, Records(items));
    if table.items == map[] {
      assert table.items.Values == {};
    }
  }

  /** GET /portfolios/:id: the stored item, or 404 when the id is absent. */
  function GetPortfolioById(table: Table, id: string): (r: Response)
    reads table
    ensures r.status == 404 <==> id !in table.items
    ensures id !in table.items ==> r == NotFound()
    ensures id in table.items ==> r == Response(200, Record(table.items[id]))
  {
    match table.Get(id)
    case None => NotFound()
    case Some(item) => Response(200, Record(item))
  }

  /**
   * The distinct skills of all stored items: no skill twice, exactly the
   * skills some item has (an item without skills adds none), in the order
   * of first occurrence over the scan.
   */
  method GetAllSkills(table: Table) returns (resp: Response)
    requires table.Valid()
    ensures resp.status == 200 && resp.body.SkillList?
    ensures NoDuplicates(resp.body.skills)
    ensures forall x :: x in resp.body.skills <==> exists p :: p in table.items.Values && x in SkillsOf(p)
    ensures exists scan :: ScanOf(scan, table.items) && resp.body.skills == Dedup(Flatten(scan))
  {
    var scan := table.Scan();
    var seen: seq<string> := [];
    var i := 0;
    while i < |scan|
      invariant 0 <= i <= |scan|
      invariant seen == Dedup(Flatten(scan[..i]))
    {
      var skills := SkillsOf(scan[i]);
      var j := 0;
      assert Flatten(scan[..i]) + skills[..0] == Flatten(scan[..i]);
      while j < |skills|
        invariant 0 <= j <= |skills|
        invariant seen == Dedup(Flatten(scan[..i]) + skills[..j])
      {
        assert Flatten(scan[..i]) + skills[..j + 1] == (Flatten(scan[..i]) + skills[..j]) + [skills[j]];
        if skills[j] !in seen {
          seen := seen + [skills[j]];
        }
        j := j + 1;
      }
      assert skills[..j] == skills;
      assert scan[..i + 1][..i] == scan[..i];
      i := i + 1;
    }
    assert scan[..i] == scan;
    resp := Response(200, SkillList(seen));
    DedupNoDuplicates(Flatten(scan));
    DedupElements(Flatten(scan));
    forall x ensures x in seen <==> exists p :: p in table.items.Values && x in SkillsOf(p) {
      FlattenContains(scan, x);
      if exists p :: p in table.items.Values && x in SkillsOf(p) {
        var p :| p in table.items.Values && x in SkillsOf(p);
        var k :| 0 <= k < |scan| && scan[k] == p;
      }
    }
  }

  /**
   * POST /portfolios: stores, under the new id, the record built from the
   * payload and the two timestamps, and answers 201 with that record. A
   * colliding id would be overwritten, as PutCommand replaces.
   */
  method CreatePortfolio(table: Table, payload: CreatePayload, newId: string, createdAt: string, updatedAt: string)
    returns (resp: Response)
    requires table.Valid()
    modifies table
    ensures table.Valid()
    ensures var stored := Portfolio(newId, payload.name, payload.description, payload.skills, createdAt, updatedAt);
      && table.items == old(table.items)[newId := stored]
      && resp == Response(201, Record(stored))
  {
    var portfolio := Portfolio(newId, payload.name, payload.description, payload.skills, createdAt, updatedAt);
    table.Put(portfolio);
    resp := Response(201, Record(portfolio));
  }

  /**
   * PUT /portfolios/:id: 404 and no update when the id is absent; otherwise
   * the SET update built from the supplied fields is executed and the
   * merged record (ALL_NEW) is stored and returned.
   */
  method UpdatePortfolio(table: Table, id: string, payload: UpdatePayload, now: string)
    returns (resp: Response)
    requires table.Valid()
    modifies table
    ensures table.Valid()
    ensures id !in old(table.items) ==> resp == NotFound() && table.items == old(table.items)
    ensures id in old(table.items) ==>
      var merged := Merge(old(table.items)[id], payload, now);
      && table.items == old(table.items)[id := merged]
      && resp == Response(200, Record(merged))
  {
    var existing := table.Get(id);
    if existing.None? {
      return NotFound();
    }
    var actions, names, values := BuildUpdateExpression(payload, now);
    ExecuteBuiltUpdate(table.items[id], payload, now);
    var result := table.Update(id, actions, names, values);
    resp := match result
      case Ok(item) => Response(200, Record(item))
      case Err(e) => Response(500, Message(ErrorMessage(e)));
  }

  /** DELETE /portfolios/:id: 404 when the id is absent; otherwise the item is removed and the answer is 204 with no body. */
  method DeletePortfolio(table: Table, id: string) returns (resp: Response)
    requires table.Valid()
    modifies table
    ensures table.Valid()
    ensures id !in old(table.items) ==> resp == NotFound() && table.items == old(table.items)
    ensures id in old(table.items) ==> resp == Response(204, NoContent) && table.items == old(table.items) - {id}
  {
    var existing := table.Get(id);
    if existing.None? {
      return NotFound();
    }
    table.Delete(id);
    resp := Response(204, NoContent);
  }

  /**
   * A record's life: created, read back with the payload's fields, renamed,
   * read back with the new name, deleted, and then not found.
   */
  method Lifecycle(table: Table, id: string, createdAt: string, updatedAt: string, later: string)
    requires table.Valid()
    modifies table
    ensures table.Valid()
    ensures GetPortfolioById(table, id) == NotFound()
    ensures table.items == old(table.items) - {id}
  {
    var created := CreatePortfolio(table, CreatePayload(Some("A"), None, Some(["go", "rust"])), id, createdAt, updatedAt);
    assert created.status == 201;
    var read := GetPortfolioById(table, id);
    assert read.body.portfolio.name == Some("A") && read.body.portfolio.skills == Some(["go", "rust"]);
    var updated := UpdatePortfolio(table, id, UpdatePayload(Some("B"), None, None), later);
    read := GetPortfolioById(table, id);
    assert read.body.portfolio.name == Some("B") && read.body.portfolio.skills == Some(["go", "rust"]);
    assert read.body.portfolio.updatedAt == later && read.body.portfolio.createdAt == createdAt;
    var deleted := DeletePortfolio(table, id);
    assert deleted == Response(204, NoContent);
  }
}
