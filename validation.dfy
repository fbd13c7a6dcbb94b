/**
 * Request validators of the server: room parameters, credentials and the
 * profile colour check (`isValidHexColor` and the guard around it in `UpdateColor`).
 */
module Validation {
  import opened Common

  datatype ValidationError =
    | RoomNameRequired
    | InvalidDimensions
    | InvalidMinesCount
    | AuthRequired
    | PasswordTooShort

  const MinSide: int := 5
  const MaxSide: int := 50
  /** Cells that must stay free of mines: the first click and its eight neighbours, plus slack. */
  const ReservedCells: int := 15
  const MinPasswordLength: int := 6

  /** `ValidateRoomParams`: the name is checked first, then both sides, then the mine count. */
  function ValidateRoomParams(name: string, rows: int, cols: int, mines: int): (r: Option<ValidationError>)
    ensures name == "" ==> r == Some(RoomNameRequired)
    ensures name != "" && !(MinSide <= rows <= MaxSide && MinSide <= cols <= MaxSide) ==> r == Some(InvalidDimensions)
    ensures r == None <==>
              name != "" && MinSide <= rows <= MaxSide && MinSide <= cols <= MaxSide
              && 1 <= mines <= rows * cols - ReservedCells
    ensures r == Some(InvalidMinesCount) ==> name != "" && !(1 <= mines <= rows * cols - ReservedCells)
  {
    if name == "" then Some(RoomNameRequired)
    else if rows < MinSide || rows > MaxSide || cols < MinSide || cols > MaxSide then Some(InvalidDimensions)
    else
      var maxMines := rows * cols - ReservedCells;
      if mines < 1 || mines > maxMines then Some(InvalidMinesCount)
      else None
  }

  /**
   * Every accepted room keeps at least fifteen mine-free cells, and all of its
   * counters (rows, cols, mines, revealed cells) fit the 16-bit fields of the
   * binary game-state header.
   */
  lemma AcceptedRoomFitsWireFormat(name: string, rows: int, cols: int, mines: int)
    requires ValidateRoomParams(name, rows, cols, mines) == None
    ensures rows * cols - mines >= ReservedCells
    ensures 0 < mines < rows * cols <= 2500 < 65536
  {
    assert rows * cols <= 50 * cols <= 50 * 50 by {
      assert rows <= 50;
      assert cols <= 50;
    }
    assert rows * cols >= 25 by {
      assert rows >= 5 && cols >= 5;
      assert rows * cols >= 5 * cols;
    }
  }

  /** `ValidateAuthParams`: both username and password must be non-empty. */
  function ValidateAuthParams(username: string, password: string): (r: Option<ValidationError>)
    ensures r == None <==> username != "" && password != ""
    ensures r != None ==> r == Some(AuthRequired)
  {
    if username == "" || password == "" then Some(AuthRequired) else None
  }

  /** `ValidateRegisterParams`: all three fields are required before the password length is checked. */
  function ValidateRegisterParams(username: string, email: string, password: string): (r: Option<ValidationError>)
    ensures (username == "" || email == "" || password == "") <==> r == Some(AuthRequired)
    ensures r == Some(PasswordTooShort) <==> username != "" && email != "" && password != "" && |password| < MinPasswordLength
    ensures r == None <==> username != "" && email != "" && |password| >= MinPasswordLength
  {
    if username == "" || email == "" || password == "" then Some(AuthRequired)
    else if |password| < MinPasswordLength then Some(PasswordTooShort)
    else None
  }

  /** A registration that passes also passes the login check with the same credentials. */
  lemma RegisteredCredentialsPassAuth(username: string, email: string, password: string)
    requires ValidateRegisterParams(username, email, password) == None
    ensures ValidateAuthParams(username, password) == None
  {
  }

  // ---------------------------------------------------------------- colours
  // A Go string is indexed by byte; each `char` below stands for one byte.

  predicate IsHexDigit(c: char) {
    ('0' <= c <= '9') || ('A' <= c <= 'F') || ('a' <= c <= 'f')
  }

  /** `isValidHexColor`: exactly seven bytes, a leading '#', then six hex digits of either case. */
  predicate IsValidHexColor(color: string) {
    |color| == 7 && color[0] == '#' && forall i :: 1 <= i < 7 ==> IsHexDigit(color[i])
  }

  /** An independent, recursive reading of "a run of hex digits". */
  predicate AllHexDigits(s: string) {
    s == [] || (IsHexDigit(s[0]) && AllHexDigits(s[1..]))
  }

  lemma {:induction false} AllHexDigitsAt(s: string)
    ensures AllHexDigits(s) <==> forall i :: 0 <= i < |s| ==> IsHexDigit(s[i])
  {
    if s != [] {
      AllHexDigitsAt(s[1..]);
      assert forall i :: 1 <= i < |s| ==> s[i] == s[1..][i - 1];
    }
  }

  /** The validator accepts exactly '#' followed by six hex digits. */
  lemma HexColorShape(color: string)
    ensures IsValidHexColor(color) <==>
              |color| == 7 && color[0] == '#' && AllHexDigits(color[1..])
  {
    if |color| == 7 {
      AllHexDigitsAt(color[1..]);
      assert forall i :: 1 <= i < 7 ==> color[i] == color[1..][i - 1];
    }
  }

  /** `UpdateColor` accepts the empty colour (no validation) or a valid hex colour. */
  predicate ColorUpdateAccepted(color: string) {
    color == "" || IsValidHexColor(color)
  }

  lemma ColorUpdateAcceptedFacts(color: string)
    ensures color == "" ==> ColorUpdateAccepted(color)
    ensures ColorUpdateAccepted(color) && color != "" ==> |color| == 7 && color[0] == '#'
  {
  }
}
