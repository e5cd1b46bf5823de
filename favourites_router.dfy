/**
 * The `/api/favourites` router of backend/src/routes/favourites.ts: the two
 * request schemas and the GET, POST and DELETE handlers.
 *
 * The schemas are pure: they turn a request body into the validated input or
 * the list of issues. The handlers run against the `favourites` table and
 * produce the status code and JSON body of the response. zod's URL check is
 * the parameter `isUrl`; `fault` says whether the table's statement fails for
 * a reason outside the model, and `tick` is the clock's advance for an insert.
 */
module FavouritesRouter {
  import opened Outcomes
  import opened Database

  /** One property of the JSON request body: missing, a string, or some other JSON value. */
  datatype Field = Absent | Text(s: string) | NotText

  /** The parsed JSON request body: an object (only the two properties the schemas read), or anything else. */
  datatype RequestBody = JsonObject(imageUrl: Field, breed: Field) | NotAnObject

  /**
   * The issue codes these schemas can raise: `invalid_type`, `invalid_string`
   * (raised by the `url` check) and `too_small`.
   */
  datatype IssueCode = InvalidType | InvalidString | TooSmall

  /** One validation issue: the path of the offending property and its code. */
  datatype Issue = Issue(path: seq<string>, code: IssueCode)

  /** The JSON written with `res.json(...)`. */
  datatype ResponseBody =
    | Message(message: string)
    | ErrorText(error: string)
    | ValidationIssues(issues: seq<Issue>)
    | Rows(favourites: seq<Favourite>)

  datatype Response = Response(status: nat, body: ResponseBody)

  /** The validated body of a POST. */
  datatype NewFavourite = NewFavourite(imageUrl: string, breed: string)

  /** What `addFavouriteSchema` accepts: an object whose `imageUrl` is a URL string and whose `breed` is a non-empty string. */
  predicate MatchesAddSchema(body: RequestBody, isUrl: string -> bool)
  {
    && body.JsonObject?
    && body.imageUrl.Text? && isUrl(body.imageUrl.s)
    && body.breed.Text? && |body.breed.s| >= 1
  }

  /** What `removeFavouriteSchema` accepts: an object whose `imageUrl` is a URL string. */
  predicate MatchesRemoveSchema(body: RequestBody, isUrl: string -> bool)
  {
    body.JsonObject? && body.imageUrl.Text? && isUrl(body.imageUrl.s)
  }

  /** `imageUrl: z.string().url()` */
  function ImageUrlIssues(f: Field, isUrl: string -> bool): seq<Issue>
  {
    match f
    case Text(s) => if isUrl(s) then [] else [Issue(["imageUrl"], InvalidString)]
    case _ => [Issue(["imageUrl"], InvalidType)]
  }

  /** `breed: z.string().min(1)` */
  function BreedIssues(f: Field): seq<Issue>
  {
    match f
    case Text(s) => if |s| >= 1 then [] else [Issue(["breed"], TooSmall)]
    case _ => [Issue(["breed"], InvalidType)]
  }

  /** `addFavouriteSchema.parse(body)`: every property is checked and all issues are reported together. */
  function ParseAddFavourite(body: RequestBody, isUrl: string -> bool): (r: Result<NewFavourite, seq<Issue>>)
    ensures r.Success? <==> MatchesAddSchema(body, isUrl)
    ensures r.Success? ==> r.value == NewFavourite(body.imageUrl.s, body.breed.s)
    ensures r.Failure? ==> |r.error| > 0
    ensures body.NotAnObject? ==> r == Failure([Issue([], InvalidType)])
    ensures r.Failure? && body.JsonObject? ==>
      && (Issue(["imageUrl"], InvalidString) in r.error <==> body.imageUrl.Text? && !isUrl(body.imageUrl.s))
      && (Issue(["breed"], TooSmall) in r.error <==> body.breed == Text(""))
      && (forall i | i in r.error :: i.path == ["imageUrl"] || i.path == ["breed"])
  {
    match body
    case NotAnObject => Failure([Issue([], InvalidType)])
    case JsonObject(imageUrl, breed) =>
      var issues := ImageUrlIssues(imageUrl, isUrl) + BreedIssues(breed);
      if issues == [] then Success(NewFavourite(imageUrl.s, breed.s)) else Failure(issues)
  }

  /** `removeFavouriteSchema.parse(body)`; any `breed` property is ignored. */
  function ParseRemoveFavourite(body: RequestBody, isUrl: string -> bool): (r: Result<string, seq<Issue>>)
    ensures r.Success? <==> MatchesRemoveSchema(body, isUrl)
    ensures r.Success? ==> r.value == body.imageUrl.s
    ensures r.Failure? ==> |r.error| == 1
    ensures r.Failure? && body.JsonObject? ==>
      r.error[0] == Issue(["imageUrl"], if body.imageUrl.Text? then InvalidString else InvalidType)
  {
    match body
    case NotAnObject => Failure([Issue([], InvalidType)])
    case JsonObject(imageUrl, _) =>
      var issues := ImageUrlIssues(imageUrl, isUrl);
      if issues == [] then Success(imageUrl.s) else Failure(issues)
  }

  /** `GET /`: the rows newest first, or 500 when the table cannot be read. The table is not changed. */
  method HandleGet(table: FavouritesTable, fault: bool) returns (res: Response)
    requires table.Valid()
    ensures fault ==> res == Response(500, ErrorText("Failed to fetch favourites"))
    ensures !fault ==>
      && res.status == 200 && res.body.Rows?
      && multiset(res.body.favourites) == multiset(table.rows)
      && NewestFirst(res.body.favourites)
  {
    var listed := table.List(fault);
    match listed
    case Success(favourites) =>
      res := Response(200, Rows(favourites));
    case Failure(_) =>
      res := Response(500, ErrorText("Failed to fetch favourites"));
  }

  /**
   * `POST /`: validate, then insert. An invalid body is answered 400 with its
   * issues before the table is touched; a failing insert, the duplicate-URL
   * case included, is answered 500 and leaves the rows as they were.
   */
  method HandlePost(table: FavouritesTable, body: RequestBody, isUrl: string -> bool, tick: nat, fault: bool)
    returns (res: Response)
    requires table.Valid()
    modifies table
    ensures table.Valid()
    ensures !MatchesAddSchema(body, isUrl) ==>
      && res == Response(400, ValidationIssues(ParseAddFavourite(body, isUrl).error))
      && unchanged(table)
    ensures MatchesAddSchema(body, isUrl) ==>
      table.statements == old(table.statements) + [InsertFavourite(body.imageUrl.s, body.breed.s)]
    ensures MatchesAddSchema(body, isUrl) && (fault || body.imageUrl.s in Urls(old(table.rows))) ==>
      && res == Response(500, ErrorText("Failed to add favourite"))
      && table.rows == old(table.rows) && table.nextId == old(table.nextId)
      && table.clock == old(table.clock)
    ensures MatchesAddSchema(body, isUrl) && !fault && body.imageUrl.s !in Urls(old(table.rows)) ==>
      && res == Response(201, Message("Favourite added"))
      && table.rows == old(table.rows) + [Favourite(old(table.nextId), body.imageUrl.s, body.breed.s, old(table.clock) + tick)]
      && table.nextId == old(table.nextId) + 1
      && table.clock == old(table.clock) + tick
  {
    var parsed := ParseAddFavourite(body, isUrl);
    match parsed
    case Failure(issues) =>
      res := Response(400, ValidationIssues(issues));
    case Success(input) =>
      var added := table.Add(input.imageUrl, input.breed, tick, fault);
      if added.Success? {
        res := Response(201, Message("Favourite added"));
      } else {
        res := Response(500, ErrorText("Failed to add favourite"));
      }
  }

  /**
   * `DELETE /`: validate, then delete by image URL. An invalid body is answered
   * 400 before the table is touched; a delete that changed no row is 404; a
   * failing delete is 500.
   */
  method HandleDelete(table: FavouritesTable, body: RequestBody, isUrl: string -> bool, fault: bool)
    returns (res: Response)
    requires table.Valid()
    modifies table
    ensures table.Valid()
    ensures !MatchesRemoveSchema(body, isUrl) ==>
      && res == Response(400, ValidationIssues(ParseRemoveFavourite(body, isUrl).error))
      && unchanged(table)
    ensures MatchesRemoveSchema(body, isUrl) ==>
      && table.statements == old(table.statements) + [DeleteFavourite(body.imageUrl.s)]
      && table.nextId == old(table.nextId) && table.clock == old(table.clock)
    ensures MatchesRemoveSchema(body, isUrl) && fault ==>
      res == Response(500, ErrorText("Failed to remove favourite")) && table.rows == old(table.rows)
    ensures MatchesRemoveSchema(body, isUrl) && !fault && body.imageUrl.s !in Urls(old(table.rows)) ==>
      res == Response(404, ErrorText("Favourite not found")) && table.rows == old(table.rows)
    ensures MatchesRemoveSchema(body, isUrl) && !fault && body.imageUrl.s in Urls(old(table.rows)) ==>
      && res == Response(200, Message("Favourite removed"))
      && table.rows == Without(old(table.rows), body.imageUrl.s)
      && body.imageUrl.s !in Urls(table.rows)
      && |table.rows| == |old(table.rows)| - 1
  {
    var parsed := ParseRemoveFavourite(body, isUrl);
    match parsed
    case Failure(issues) =>
      res := Response(400, ValidationIssues(issues));
    case Success(imageUrl) =>
      ghost var before := table.rows;
      var removed := table.Remove(imageUrl, fault);
      match removed
      case Failure(_) =>
        res := Response(500, ErrorText("Failed to remove favourite"));
      case Success(changes) =>
        if changes == 0 {
          WithoutAbsent(before, imageUrl);
          res := Response(404, ErrorText("Favourite not found"));
        } else {
          WithoutCount(before, imageUrl);
          res := Response(200, Message("Favourite removed"));
        }
  }

  /**
   * The add, list, remove, list round of requests for one image on an empty
   * table: 201, the one row, 200, no rows.
   */
  method AddListRemoveList(isUrl: string -> bool) returns (added: Response, listed: Response, removed: Response, relisted: Response)
    requires isUrl("https://img/1.jpg")
    ensures added == Response(201, Message("Favourite added"))
    ensures listed == Response(200, Rows([Favourite(1, "https://img/1.jpg", "beagle", 0)]))
    ensures removed == Response(200, Message("Favourite removed"))
    ensures relisted == Response(200, Rows([]))
  {
    var table := new FavouritesTable();
    var url := "https://img/1.jpg";
    added := HandlePost(table, JsonObject(Text(url), Text("beagle")), isUrl, 0, false);
    listed := HandleGet(table, false);
    var row := Favourite(1, url, "beagle", 0);
    assert table.rows == [row];
    SingletonListing(listed.body.favourites, row);
    removed := HandleDelete(table, JsonObject(Text(url), Absent), isUrl, false);
    relisted := HandleGet(table, false);
    assert table.rows == [];
    assert |relisted.body.favourites| == 0 by {
      assert |multiset(relisted.body.favourites)| == 0;
    }
  }

  /** The only listing of a single row is that row. */
  lemma SingletonListing(s: seq<Favourite>, row: Favourite)
    requires multiset(s) == multiset([row])
    ensures s == [row]
  {
    assert |s| == |multiset(s)| == 1;
    assert s[0] in multiset(s);
  }
}
