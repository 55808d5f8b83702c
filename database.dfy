/** The canvas database and its routes. The three SQLite tables are fields
    of one object, and every route is one atomic method over them; the clock
    and the fresh user identifier are passed in by the caller. */
module AnkiPlace {
  import opened Types
  import opened Grid
  import opened Awards

  class Database {
    /** The `canvas` table, keyed by `(x, y)`. */
    var canvas: map<Pos, Cell>
    /** The `users` table, keyed by `user_id`. */
    var users: map<UserId, User>
    /** The `review_proofs` table; the whole row is the key. */
    var proofs: set<ProofKey>

    /** Every in-range cell has exactly one row, and no other cell does;
        every stored colour is a palette index. */
    ghost predicate CanvasValid()
      reads this
    {
      && (forall p :: p in canvas <==> InBounds(p.0, p.1))
      && (forall p :: p in canvas ==> ValidColor(canvas[p].color))
    }

    /** No balance is negative, and every recorded proof belongs to a
        registered user. The editor of a cell is a weak reference and is
        deliberately not tied to `users`. */
    ghost predicate LedgerValid()
      reads this
    {
      && (forall u :: u in users ==> users[u].balance >= 0)
      && (forall k :: k in proofs ==> k.0 in users)
    }

    ghost predicate Valid()
      reads this
    {
      CanvasValid() && LedgerValid()
    }

    /** A fresh database file: empty tables followed by `init_db`. */
    constructor ()
      ensures Valid()
      ensures IsInitialCanvas(canvas) && |canvas| == CellCount
      ensures users == map[] && proofs == {}
    {
      canvas := map[];
      users := map[];
      proofs := {};
      new;
      InitDb();
      FullGridSize(canvas);
    }

    /** `init_db`: seeds the whole grid with blank cells when the canvas
        table is empty, and leaves an existing canvas alone. */
    method InitDb()
      modifies this
      ensures old(canvas) == map[] ==> IsInitialCanvas(canvas)
      ensures old(canvas) != map[] ==> canvas == old(canvas)
      ensures users == old(users) && proofs == old(proofs)
    {
      if |canvas| == 0 {
        var x := 0;
        while x < GridSize
          invariant 0 <= x <= GridSize
          invariant forall p :: p in canvas <==> 0 <= p.0 < x && 0 <= p.1 < GridSize
          invariant forall p :: p in canvas ==> canvas[p] == BlankCell
          invariant users == old(users) && proofs == old(proofs)
        {
          var y := 0;
          while y < GridSize
            invariant 0 <= y <= GridSize
            invariant forall p :: p in canvas <==>
              (0 <= p.0 < x && 0 <= p.1 < GridSize) || (p.0 == x && 0 <= p.1 < y)
            invariant forall p :: p in canvas ==> canvas[p] == BlankCell
            invariant users == old(users) && proofs == old(proofs)
          {
            canvas := canvas[(x, y) := BlankCell];
            y := y + 1;
          }
          x := x + 1;
        }
      }
    }

    /** `get_canvas`: the colours of all cells as one flat list, row by row. */
    method GetCanvas() returns (grid: seq<int>)
      requires Valid()
      ensures |grid| == CellCount
      ensures forall x, y :: InBounds(x, y) ==> grid[CellIndex(x, y)] == canvas[(x, y)].color
      ensures forall i :: 0 <= i < CellCount ==> ValidColor(grid[i])
    {
      var cells := new int[CellCount](_ => 0);
      var rows := canvas.Keys;
      while rows != {}
        invariant rows <= canvas.Keys
        invariant forall p :: p in canvas && p !in rows ==>
          cells[CellIndex(p.0, p.1)] == canvas[p].color
        invariant forall i :: 0 <= i < CellCount ==> ValidColor(cells[i])
        decreases |rows|
      {
        var p :| p in rows;
        var idx := p.1 * GridSize + p.0;
        if 0 <= idx < CellCount {
          cells[idx] := canvas[p].color;
        }
        rows := rows - {p};
      }
      grid := cells[..];
      assert forall x, y :: InBounds(x, y) ==> (x, y) in canvas;
    }

    /** The name of a cell's last editor, absent when there is no editor or
        no user row for it (the left join of `get_pixel_details`). */
    function EditorName(editor: Option<UserId>): (name: Option<string>)
      reads this
      ensures name.Some? <==> editor.Some? && editor.value in users
      ensures name.Some? ==> name.value == users[editor.value].username
    {
      match editor
      case Some(u) => if u in users then Some(users[u].username) else None
      case None => None
    }

    /** `get_pixel_details`: one cell with the name of its last editor. */
    function GetPixelDetails(x: int, y: int): (r: Result<PixelDetail>)
      reads this
      ensures !InBounds(x, y) ==> r == Err(OutOfBounds)
      ensures InBounds(x, y) && (x, y) !in canvas ==> r == Err(PixelNotFound)
      ensures r.Ok? ==>
        && InBounds(x, y) && (x, y) in canvas
        && r.value.x == x && r.value.y == y
        && r.value.color == canvas[(x, y)].color
        && r.value.lastUserId == canvas[(x, y)].lastUser
        && r.value.lastModified == canvas[(x, y)].lastModified
        && r.value.username == EditorName(canvas[(x, y)].lastUser)
      ensures Valid() ==> (r.Ok? <==> InBounds(x, y))
    {
      if !InBounds(x, y) then Err(OutOfBounds)
      else if (x, y) !in canvas then Err(PixelNotFound)
      else
        var cell := canvas[(x, y)];
        Ok(PixelDetail(x, y, cell.color, cell.lastUser, EditorName(cell.lastUser), cell.lastModified))
    }

    /** `paint_pixel`: validates the request, then spends one paint of the
        user's to recolour one cell, both or neither. */
    method Paint(x: int, y: int, color: int, userId: UserId, now: Time) returns (r: Result<Painted>)
      requires Valid()
      modifies this
      ensures Valid()
      ensures PaintCheck(x, y, color).Some? ==> r == Err(PaintCheck(x, y, color).value)
      ensures PaintCheck(x, y, color).None? && userId !in old(users) ==> r == Err(NotFound)
      ensures PaintCheck(x, y, color).None? && userId in old(users) && old(users)[userId].balance < 1
              ==> r == Err(InsufficientFunds)
      ensures PaintCheck(x, y, color).None? && userId in old(users) && old(users)[userId].balance >= 1
              ==> r.Ok?
      ensures r.Err? ==> canvas == old(canvas) && users == old(users) && proofs == old(proofs)
      ensures r.Ok? ==>
        && r.value == Painted(x, y, color)
        && InBounds(x, y) && ValidColor(color)
        && userId in old(users) && old(users)[userId].balance >= 1
        && canvas == old(canvas)[(x, y) := Cell(color, Some(userId), now)]
        && users == old(users)[userId := old(users)[userId].AddPaint(-1)]
        && proofs == old(proofs)
    {
      var invalid := PaintCheck(x, y, color);
      if invalid.Some? {
        return Err(invalid.value);
      }
      if userId !in users {
        return Err(NotFound);
      }
      if users[userId].balance < 1 {
        return Err(InsufficientFunds);
      }
      canvas := canvas[(x, y) := Cell(color, Some(userId), now)];
      var user := users[userId];
      users := users[userId := user.AddPaint(-1)];
      return Ok(Painted(x, y, color));
    }

    /** `register_user`: a new user with a zero balance under the fresh
        identifier `newId`, created at time `now`. */
    method RegisterUser(username: string, newId: UserId, now: Time) returns (r: Registration)
      requires Valid()
      requires newId !in users
      modifies this
      ensures Valid()
      ensures r == Registration(newId, username)
      ensures users == old(users)[newId := User(username, 0, now)]
      ensures canvas == old(canvas) && proofs == old(proofs)
      ensures GetUser(newId) == Ok(UserInfo(newId, username, now))
      ensures GetBalance(newId) == Ok(0)
    {
      users := users[newId := User(username, 0, now)];
      return Registration(newId, username);
    }

    /** The check-then-insert on `review_proofs` for one key: reports
        whether the key was new, and records it either way. */
    method RecordIfNew(key: ProofKey) returns (isNew: bool)
      modifies this`proofs
      ensures isNew <==> key !in old(proofs)
      ensures proofs == old(proofs) + {key}
    {
      isNew := key !in proofs;
      if isNew {
        proofs := proofs + {key};
      }
    }

    /** The balance update of `submit_reviews`, issued only for a positive award. */
    method CreditIfPositive(userId: UserId, amount: nat)
      requires userId in users
      modifies this`users
      ensures users == old(users)[userId := old(users)[userId].AddPaint(amount)]
    {
      var user := users[userId];
      if amount > 0 {
        users := users[userId := user.AddPaint(amount)];
      } else {
        assert user.AddPaint(amount) == user;
        assert users[userId := user] == users;
      }
    }

    /** The loop of `submit_reviews`: runs the check-then-insert for every
        proof of the batch in turn and counts the keys that were new. */
    method RecordBatch(userId: UserId, batch: seq<Proof>) returns (newCount: nat)
      modifies this`proofs
      ensures newCount == NewProofs(old(proofs), userId, batch)
      ensures proofs == old(proofs) + BatchKeys(userId, batch)
    {
      newCount := 0;
      var i := 0;
      while i < |batch|
        invariant 0 <= i <= |batch|
        invariant proofs == old(proofs) + BatchKeys(userId, batch[..i])
        invariant newCount == NewProofs(old(proofs), userId, batch[..i])
      {
        BatchStep(old(proofs), userId, batch, i);
        var isNew := RecordIfNew(Key(userId, batch[i]));
        if isNew {
          newCount := newCount + 1;
        }
        i := i + 1;
      }
      assert batch[..i] == batch;
    }

    /** `submit_reviews`: records the batch's unseen proofs, counting each
        new key once, and credits one paint per ten of them. */
    method SubmitReviews(userId: UserId, batch: seq<Proof>) returns (r: Result<Submission>)
      requires Valid()
      modifies this
      ensures Valid()
      ensures r.Err? <==> userId !in old(users)
      ensures r.Err? ==> r.error == NotFound && canvas == old(canvas) && users == old(users) && proofs == old(proofs)
      ensures r.Ok? ==> r.value.newProofs == NewProofs(old(proofs), userId, batch)
      ensures r.Ok? ==> r.value.paintAwarded == Award(r.value.newProofs)
      ensures r.Ok? ==> proofs == old(proofs) + BatchKeys(userId, batch)
      ensures r.Ok? ==> users == old(users)[userId := old(users)[userId].AddPaint(r.value.paintAwarded)]
      ensures r.Ok? ==> canvas == old(canvas)
    {
      if userId !in users {
        return Err(NotFound);
      }
      var newCount := RecordBatch(userId, batch);
      BatchKeysOwner(userId, batch);
      var paintAwarded := Award(newCount);
      CreditIfPositive(userId, paintAwarded);
      return Ok(Submission(newCount, paintAwarded));
    }

    /** `get_balance`: the paint a user holds. */
    function GetBalance(userId: UserId): (r: Result<int>)
      reads this
      ensures r.Ok? <==> userId in users
      ensures r.Err? ==> r.error == NotFound
      ensures r.Ok? ==> r.value == users[userId].balance
      ensures Valid() && r.Ok? ==> r.value >= 0
    {
      if userId in users then Ok(users[userId].balance) else Err(NotFound)
    }

    /** `get_user`: a user's name and registration time. */
    function GetUser(userId: UserId): (r: Result<UserInfo>)
      reads this
      ensures r.Ok? <==> userId in users
      ensures r.Err? ==> r.error == NotFound
      ensures r.Ok? ==> r.value == UserInfo(userId, users[userId].username, users[userId].createdAt)
    {
      if userId in users then Ok(UserInfo(userId, users[userId].username, users[userId].createdAt))
      else Err(NotFound)
    }
  }

  /** Submitting the same batch twice credits it once: the second call finds
      no new proof, awards nothing and leaves the state as the first left it. */
  method SubmitTwice(db: Database, userId: UserId, batch: seq<Proof>)
    returns (first: Result<Submission>, second: Result<Submission>)
    requires db.Valid()
    modifies db
    ensures db.Valid()
    ensures first.Ok? <==> userId in old(db.users)
    ensures second == if first.Ok? then Ok(Submission(0, 0)) else Err(NotFound)
    ensures first.Ok? ==>
      && db.proofs == old(db.proofs) + BatchKeys(userId, batch)
      && db.users == old(db.users)[userId := old(db.users)[userId].AddPaint(first.value.paintAwarded)]
    ensures first.Err? ==> db.proofs == old(db.proofs) && db.users == old(db.users)
    ensures db.canvas == old(db.canvas)
  {
    first := db.SubmitReviews(userId, batch);
    ghost var proofsAfterFirst, usersAfterFirst := db.proofs, db.users;
    if first.Ok? {
      assert BatchKeys(userId, batch) - proofsAfterFirst == {};
    }
    second := db.SubmitReviews(userId, batch);
    if first.Ok? {
      assert proofsAfterFirst + BatchKeys(userId, batch) == proofsAfterFirst;
      var user := usersAfterFirst[userId];
      assert user.AddPaint(0) == user;
      assert usersAfterFirst[userId := user] == usersAfterFirst;
    }
  }
}
