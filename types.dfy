/** The values stored in the three tables of the canvas database and the
    errors its routes report. */
module Types {

  /** Wall-clock seconds as stored in the REAL columns; only compared for equality. */
  type Time = real

  /** The text identifier a user receives on registration (a UUID string). */
  type UserId = string

  /** A grid position `(x, y)`, the primary key of the `canvas` table. */
  type Pos = (int, int)

  /** A row of `review_proofs`: `(user_id, card_id, timestamp)`, all three the key. */
  type ProofKey = (UserId, int, Time)

  datatype Option<T> = None | Some(value: T)

  /** The failures of the routes, in place of the HTTP status codes they map to. */
  datatype Error =
    | OutOfBounds        // coordinate outside the grid (400)
    | InvalidColor       // colour index outside the palette (400)
    | NotFound           // unknown user (404)
    | InsufficientFunds  // paint balance below one (403)
    | PixelNotFound      // no canvas row at an in-range position

  datatype Result<T> = Ok(value: T) | Err(error: Error)

  /** One row of the `canvas` table, without its key. */
  datatype Cell = Cell(color: int, lastUser: Option<UserId>, lastModified: Time)

  /** One row of the `users` table, without its key. */
  datatype User = User(username: string, balance: int, createdAt: Time) {
    /** The same user with `amount` more paint (fewer, for a negative `amount`). */
    function AddPaint(amount: int): (u: User) {
      this.(balance := balance + amount)
    }
  }

  /** One submitted proof of review. */
  datatype Proof = Proof(cardId: int, timestamp: Time)

  /** What `get_pixel_details` returns: the cell joined with its editor's name. */
  datatype PixelDetail = PixelDetail(
    x: int, y: int, color: int,
    lastUserId: Option<UserId>, username: Option<string>, lastModified: Time)

  /** What `paint_pixel` returns on success. */
  datatype Painted = Painted(x: int, y: int, color: int)

  /** What `register_user` returns. */
  datatype Registration = Registration(userId: UserId, username: string)

  /** What `submit_reviews` returns on success. */
  datatype Submission = Submission(newProofs: nat, paintAwarded: nat)

  /** What `get_user` returns. */
  datatype UserInfo = UserInfo(userId: UserId, username: string, createdAt: Time)
}
