/**
 * The Connect Four board of src/lib/connect_four.py: the three-valued cell, the
 * rows x cols grid, and the compact serialisation that `pack` writes as a hex
 * string and `unpack` reads back.
 *
 * The byte layout is a two-byte header (rows, cols) followed by one byte per
 * cell in row-major order, so cell (row, col) sits at offset 2 + row*cols + col.
 */
module ConnectFourBoard {
  import opened Wrappers

  type uint8 = x: int | 0 <= x < 256

  // ------------------------------------------------------------------ cells

  /** ConnectCell, whose enum values are EMPTY = 0b00, RED = 0b01, YELLOW = 0b10. */
  datatype ConnectCell = Empty | Red | Yellow

  /** The enum value of a cell: the byte `pack` writes for it. */
  function Code(c: ConnectCell): (v: uint8)
    ensures v <= 2
    ensures c == Empty <==> v == 0
    ensures c == Red <==> v == 1
    ensures c == Yellow <==> v == 2
  {
    match c
    case Empty => 0
    case Red => 1
    case Yellow => 2
  }

  /** `ConnectCell(v)`: lookup by value, which raises ValueError (None here) for any other value. */
  function FromCode(v: int): (r: Option<ConnectCell>)
    ensures r.Some? <==> 0 <= v <= 2
    ensures r.Some? ==> Code(r.value) == v
  {
    if v == 0 then Some(Empty)
    else if v == 1 then Some(Red)
    else if v == 2 then Some(Yellow)
    else None
  }

  /** Looking a cell up by its own value gives the cell back. */
  lemma CodeRoundTrip(c: ConnectCell)
    ensures FromCode(Code(c)) == Some(c)
  {
  }

  /** `emoji`: the rich markup a cell is shown with; the empty cell is a blank. */
  function Emoji(c: ConnectCell): (s: string)
    ensures c == Empty <==> s == " "
    ensures c != Empty ==> |s| > 2 && s[0] == ':' && s[|s| - 1] == ':'
  {
    match c
    case Empty => " "
    case Red => ":red_circle:"
    case Yellow => ":yellow_circle:"
  }

  /** Different cells are shown differently. */
  lemma EmojiDistinguishes(a: ConnectCell, b: ConnectCell)
    ensures Emoji(a) == Emoji(b) <==> a == b
  {
  }

  // ------------------------------------------------------------------ the board

  /** ConnectFour: the dimensions it was built with and the grid, a list of rows. */
  datatype ConnectFour = ConnectFour(rows: int, cols: int, board: seq<seq<ConnectCell>>)

  /** The defaults of `ConnectFour.__init__`. */
  const DefaultRows: int := 6
  const DefaultCols: int := 7

  /** The grid holds `rows` rows of `cols` cells each. */
  predicate WellFormed(b: ConnectFour)
  {
    && 0 <= b.rows && 0 <= b.cols
    && |b.board| == b.rows
    && forall r :: 0 <= r < |b.board| ==> |b.board[r]| == b.cols
  }

  /** The number of items in `range(n)`: none when n is negative. */
  function Count(n: int): nat
  {
    if n < 0 then 0 else n
  }

  /** `ConnectFour(rows, cols)`: a grid of `range(rows)` rows of `range(cols)` EMPTY cells. */
  function New(rows: int, cols: int): (b: ConnectFour)
    ensures b.rows == rows && b.cols == cols
    ensures |b.board| == Count(rows)
    ensures forall r :: 0 <= r < |b.board| ==> |b.board[r]| == Count(cols)
    ensures forall r, c :: 0 <= r < |b.board| && 0 <= c < |b.board[r]| ==> b.board[r][c] == Empty
    ensures 0 <= rows && 0 <= cols ==> WellFormed(b)
  {
    ConnectFour(rows, cols, seq(Count(rows), _ => seq(Count(cols), _ => Empty)))
  }

  // ------------------------------------------------------------------ byte layout

  /** The bytes `pack` writes for one row, one per cell. */
  function RowBytes(row: seq<ConnectCell>): (bs: seq<uint8>)
    ensures |bs| == |row|
    ensures forall i :: 0 <= i < |row| ==> bs[i] == Code(row[i])
  {
    seq(|row|, i requires 0 <= i < |row| => Code(row[i]))
  }

  /** The cell bytes of a whole grid, row after row; every one is a cell code. */
  function CellBytes(board: seq<seq<ConnectCell>>): (bs: seq<uint8>)
    ensures forall i :: 0 <= i < |bs| ==> bs[i] <= 2
  {
    if board == [] then [] else CellBytes(board[..|board| - 1]) + RowBytes(board[|board| - 1])
  }

  /** The ">BB" header can hold the dimensions. */
  predicate HeaderFits(b: ConnectFour)
  {
    0 <= b.rows <= 255 && 0 <= b.cols <= 255
  }

  /** The byte array `pack` builds before hex-encoding it. */
  function Packed(b: ConnectFour): (bs: seq<uint8>)
    requires HeaderFits(b)
  {
    [b.rows, b.cols] + CellBytes(b.board)
  }

  /** The offset `unpack` reads cell (row, col) from. */
  function CellOffset(cols: int, row: int, col: int): int
  {
    2 + row * cols + col
  }

  lemma CellOffsetBelow(rows: int, cols: int, row: int, col: int)
    requires 0 <= row < rows && 0 <= col < cols
    ensures 2 <= CellOffset(cols, row, col) < 2 + rows * cols
  {
    assert row * cols + col < (row + 1) * cols;
    assert (row + 1) * cols <= rows * cols;
  }

  lemma {:induction false} CellBytesLength(board: seq<seq<ConnectCell>>, cols: nat)
    requires forall r :: 0 <= r < |board| ==> |board[r]| == cols
    ensures |CellBytes(board)| == |board| * cols
  {
    if board != [] {
      var n := |board| - 1;
      CellBytesLength(board[..n], cols);
      assert |board| * cols == n * cols + cols;
    }
  }

  lemma {:induction false} CellBytesAt(board: seq<seq<ConnectCell>>, cols: nat, row: nat, col: nat)
    requires forall r :: 0 <= r < |board| ==> |board[r]| == cols
    requires row < |board| && col < cols
    ensures row * cols + col < |CellBytes(board)|
    ensures CellBytes(board)[row * cols + col] == Code(board[row][col])
  {
    var n := |board| - 1;
    CellBytesLength(board[..n], cols);
    CellBytesLength(board, cols);
    CellOffsetBelow(|board|, cols, row, col);
    if row < n {
      CellBytesAt(board[..n], cols, row, col);
      CellOffsetBelow(n, cols, row, col);
    } else {
      assert row * cols == n * cols;
    }
  }

  /**
   * The size of `pack`'s output: byte 0 is rows, byte 1 is cols, then
   * rows*cols cell bytes, and so twice as many hex digits.
   */
  lemma PackLength(b: ConnectFour)
    requires WellFormed(b) && HeaderFits(b)
    ensures Packed(b)[0] == b.rows && Packed(b)[1] == b.cols
    ensures |Packed(b)| == 2 + b.rows * b.cols
    ensures |Hex(Packed(b))| == 2 * (2 + b.rows * b.cols)
  {
    CellBytesLength(b.board, b.cols);
  }

  /** Byte 2 + row*cols + col of `pack`'s output is the code of cell (row, col). */
  lemma PackLayout(b: ConnectFour, row: int, col: int)
    requires WellFormed(b) && HeaderFits(b)
    requires 0 <= row < b.rows && 0 <= col < b.cols
    ensures CellOffset(b.cols, row, col) < |Packed(b)|
    ensures Packed(b)[CellOffset(b.cols, row, col)] == Code(b.board[row][col])
  {
    CellBytesAt(b.board, b.cols, row, col);
    HeaderThenCells([b.rows, b.cols], CellBytes(b.board), row * b.cols + col);
  }

  /** Byte 2 + k of a two-byte header followed by cells is cell byte k. */
  lemma HeaderThenCells(header: seq<uint8>, cells: seq<uint8>, k: int)
    requires |header| == 2 && 0 <= k < |cells|
    ensures 2 + k < |header + cells| && (header + cells)[2 + k] == cells[k]
  {
  }

  // ------------------------------------------------------------------ hex text

  function HexDigit(d: int): char
    requires 0 <= d < 16
  {
    if d < 10 then ('0' as int + d) as char else ('a' as int + d - 10) as char
  }

  /** The value of one hex digit of either case. */
  function HexValue(ch: char): (r: Option<int>)
    ensures r.Some? ==> 0 <= r.value < 16
  {
    if '0' <= ch <= '9' then Some(ch as int - '0' as int)
    else if 'a' <= ch <= 'f' then Some(ch as int - 'a' as int + 10)
    else if 'A' <= ch <= 'F' then Some(ch as int - 'A' as int + 10)
    else None
  }

  lemma HexDigitValue(d: int)
    requires 0 <= d < 16
    ensures HexValue(HexDigit(d)) == Some(d)
  {
  }

  /** `bytes.hex()`: two lower-case hex digits per byte, the high nibble first. */
  function Hex(bs: seq<uint8>): (s: string)
    ensures |s| == 2 * |bs|
  {
    if bs == [] then []
    else [HexDigit(bs[0] / 16), HexDigit(bs[0] % 16)] + Hex(bs[1..])
  }

  /** Hex digits 2i and 2i+1 spell byte i, high nibble first. */
  lemma {:induction false} HexAt(bs: seq<uint8>, i: int)
    requires 0 <= i < |bs|
    ensures HexValue(Hex(bs)[2 * i]) == Some(bs[i] / 16)
    ensures HexValue(Hex(bs)[2 * i + 1]) == Some(bs[i] % 16)
  {
    if i == 0 {
      HexDigitValue(bs[0] / 16);
      HexDigitValue(bs[0] % 16);
    } else {
      HexAt(bs[1..], i - 1);
      assert Hex(bs)[2 * i] == Hex(bs[1..])[2 * (i - 1)];
      assert Hex(bs)[2 * i + 1] == Hex(bs[1..])[2 * (i - 1) + 1];
    }
  }

  /** The ASCII whitespace `bytearray.fromhex` skips: space, tab, LF, VT, FF, CR. */
  predicate IsSpace(ch: char)
  {
    ch == ' ' || 9 <= ch as int <= 13
  }

  /**
   * `bytearray.fromhex`: pairs of hex digits of either case, whitespace
   * allowed between pairs; an odd digit or any other character is a
   * ValueError (None here).
   */
  function FromHex(s: string): (r: Option<seq<uint8>>)
    ensures r.Some? ==> 2 * |r.value| <= |s|
    decreases |s|
  {
    if s == [] then Some([])
    else if IsSpace(s[0]) then FromHex(s[1..])
    else if |s| < 2 then None
    else
      var hi, lo := HexValue(s[0]), HexValue(s[1]);
      if hi.None? || lo.None? then None
      else
        match FromHex(s[2..])
        case None => None
        case Some(rest) => Some([hi.value * 16 + lo.value] + rest)
  }

  /** `fromhex` reads the two digits of a byte and goes on with the rest of the text. */
  lemma FromHexPair(d: uint8, rest: string)
    ensures FromHex([HexDigit(d / 16), HexDigit(d % 16)] + rest) ==
      match FromHex(rest)
      case None => None
      case Some(tail) => Some([d] + tail)
  {
    var s := [HexDigit(d / 16), HexDigit(d % 16)] + rest;
    HexDigitValue(d / 16);
    HexDigitValue(d % 16);
    assert !IsSpace(s[0]) && s[2..] == rest;
  }

  /** `bytearray.fromhex(bs.hex()) == bs`. */
  lemma {:induction false} HexRoundTrip(bs: seq<uint8>)
    ensures FromHex(Hex(bs)) == Some(bs)
  {
    if bs != [] {
      HexRoundTrip(bs[1..]);
      FromHexPair(bs[0], Hex(bs[1..]));
      assert [bs[0]] + bs[1..] == bs;
    }
  }

  // ------------------------------------------------------------------ pack

  /** The struct.error `pack` raises when the ">BB" header cannot hold the dimensions. */
  datatype PackError = HeaderOutOfRange

  /**
   * `pack`: the header, then every cell of every row in order, as a hex string.
   * It reads the board and leaves it as it was.
   */
  method Pack(b: ConnectFour) returns (r: Result<string, PackError>)
    ensures r.Ok? <==> HeaderFits(b)
    ensures r.Ok? ==> r.value == Hex(Packed(b))
  {
    if !HeaderFits(b) {
      return Err(HeaderOutOfRange);
    }
    var packed: seq<uint8> := [b.rows, b.cols];
    for i := 0 to |b.board|
      invariant packed == [b.rows, b.cols] + CellBytes(b.board[..i])
    {
      var row := b.board[i];
      for j := 0 to |row|
        invariant packed == [b.rows, b.cols] + CellBytes(b.board[..i]) + RowBytes(row[..j])
      {
        packed := packed + [Code(row[j])];
        assert RowBytes(row[..j + 1]) == RowBytes(row[..j]) + [Code(row[j])];
      }
      assert row[..|row|] == row;
      assert b.board[..i + 1][..i] == b.board[..i];
    }
    assert b.board[..|b.board|] == b.board;
    return Ok(Hex(packed));
  }

  // ------------------------------------------------------------------ unpack

  /**
   * Why `unpack` fails: ValueError from `fromhex`, struct.error for a header
   * of fewer than two bytes or for a missing cell byte at `offset`, and
   * ValueError for a byte at `offset` that is not a cell value.
   */
  datatype UnpackError =
    | InvalidHex
    | ShortHeader
    | ShortCells(offset: nat)
    | InvalidCell(offset: nat, value: uint8)

  /** Body byte i (byte 2 + i of the input) is present and is a cell value. */
  predicate CellByteOk(body: seq<uint8>, i: int)
  {
    0 <= i < |body| && body[i] <= 2
  }

  /**
   * Cells k, k+1, ..., n-1 of the body read in order: the error for the first
   * one that is missing or not a cell value, if any.
   */
  function FirstBadCell(body: seq<uint8>, n: nat, k: nat): (r: Option<UnpackError>)
    requires k <= n
    ensures r.None? <==> forall i :: k <= i < n ==> CellByteOk(body, i)
    ensures r.Some? ==> r.value.ShortCells? || r.value.InvalidCell?
    ensures r.Some? ==> k + 2 <= r.value.offset < n + 2
    ensures r.Some? ==> forall i :: k <= i < r.value.offset - 2 ==> CellByteOk(body, i)
    ensures r.Some? ==> !CellByteOk(body, r.value.offset - 2)
    ensures r.Some? ==> (r.value.ShortCells? <==> r.value.offset - 2 >= |body|)
    ensures r.Some? && r.value.InvalidCell? ==> r.value.value == body[r.value.offset - 2]
    decreases n - k
  {
    if k == n then None
    else if k >= |body| then assert !CellByteOk(body, k); Some(ShortCells(k + 2))
    else if body[k] > 2 then assert !CellByteOk(body, k); Some(InvalidCell(k + 2, body[k]))
    else FirstBadCell(body, n, k + 1)
  }

  /** The cell `unpack` stores at (row, col): the value of the byte at its offset. */
  function CellAt(bytes: seq<uint8>, cols: int, row: int, col: int): ConnectCell
  {
    var offset := CellOffset(cols, row, col);
    if 0 <= offset < |bytes| then
      match FromCode(bytes[offset])
      case Some(c) => c
      case None => Empty
    else Empty
  }

  /** The grid `unpack` fills in: every cell from its own offset. */
  function DecodedGrid(bytes: seq<uint8>, rows: nat, cols: nat): (g: seq<seq<ConnectCell>>)
    ensures |g| == rows
    ensures forall row :: 0 <= row < rows ==> |g[row]| == cols
    ensures forall row, col :: 0 <= row < rows && 0 <= col < cols ==> g[row][col] == CellAt(bytes, cols, row, col)
  {
    seq(rows, row => seq(cols, col => CellAt(bytes, cols, row, col)))
  }

  /**
   * What `unpack` makes of the bytes `fromhex` produced: the dimensions from the
   * header, then every cell from its own offset in row-major order, failing at
   * the first cell byte that is missing or not a cell value.
   */
  function Decode(bytes: seq<uint8>): (r: Result<ConnectFour, UnpackError>)
    ensures |bytes| < 2 ==> r == Err(ShortHeader)
    ensures r.Ok? <==> |bytes| >= 2 && forall i :: 0 <= i < bytes[0] as int * bytes[1] ==> CellByteOk(bytes[2..], i)
    ensures r.Ok? ==> WellFormed(r.value) && r.value.rows == bytes[0] && r.value.cols == bytes[1]
    ensures r != Err(InvalidHex)
  {
    if |bytes| < 2 then Err(ShortHeader)
    else
      var rows: int, cols: int := bytes[0], bytes[1];
      match FirstBadCell(bytes[2..], rows * cols, 0)
      case Some(e) => Err(e)
      case None => Ok(ConnectFour(rows, cols, DecodedGrid(bytes, rows, cols)))
  }

  /** `unpack` on a string: `fromhex`, then Decode. */
  function Unpacked(value: string): (r: Result<ConnectFour, UnpackError>)
    ensures r == Err(InvalidHex) <==> FromHex(value).None?
  {
    match FromHex(value)
    case None => Err(InvalidHex)
    case Some(bytes) => Decode(bytes)
  }

  /** A successful decode took cell (row, col) from offset 2 + row*cols + col and from nowhere else. */
  lemma DecodeReadsCellOffset(bytes: seq<uint8>, row: int, col: int)
    requires Decode(bytes).Ok?
    requires 0 <= row < bytes[0] && 0 <= col < bytes[1]
    ensures CellOffset(bytes[1], row, col) < |bytes|
    ensures FromCode(bytes[CellOffset(bytes[1], row, col)]) == Some(Decode(bytes).value.board[row][col])
  {
    var rows: int, cols: int := bytes[0], bytes[1];
    CellOffsetBelow(rows, cols, row, col);
    var offset := CellOffset(cols, row, col);
    assert CellByteOk(bytes[2..], offset - 2);
  }

  lemma {:induction false} FirstBadCellPrefix(body: seq<uint8>, longer: seq<uint8>, n: nat, k: nat)
    requires k <= n <= |body| <= |longer| && body == longer[..|body|]
    ensures FirstBadCell(longer, n, k) == FirstBadCell(body, n, k)
    decreases n - k
  {
    if k < n {
      FirstBadCellPrefix(body, longer, n, k + 1);
    }
  }

  /** Bytes after the last cell do not change what `unpack` returns. */
  lemma DecodeIgnoresTrailing(bytes: seq<uint8>, extra: seq<uint8>)
    requires |bytes| >= 2 && |bytes| >= 2 + bytes[0] as int * bytes[1]
    ensures Decode(bytes + extra) == Decode(bytes)
  {
    var all := bytes + extra;
    var rows: int, cols: int := bytes[0], bytes[1];
    assert all[0] == rows && all[1] == cols;
    assert bytes[2..] == all[2..][..|bytes| - 2];
    FirstBadCellPrefix(bytes[2..], all[2..], rows * cols, 0);
    var grid, grid' := DecodedGrid(all, rows, cols), DecodedGrid(bytes, rows, cols);
    forall row | 0 <= row < rows
      ensures grid[row] == grid'[row]
    {
      forall col | 0 <= col < cols
        ensures grid[row][col] == grid'[row][col]
      {
        CellOffsetBelow(rows, cols, row, col);
      }
    }
    assert grid == grid';
  }

  /** The first bad cell, once located, is the one FirstBadCell reports. */
  lemma FirstBadCellIs(body: seq<uint8>, n: nat, i: nat)
    requires i < n
    requires forall j :: 0 <= j < i ==> CellByteOk(body, j)
    requires !CellByteOk(body, i)
    ensures FirstBadCell(body, n, 0) ==
      if i >= |body| then Some(ShortCells(i + 2)) else Some(InvalidCell(i + 2, body[i]))
  {
    var r := FirstBadCell(body, n, 0);
    assert r.Some?;
    var j := r.value.offset - 2;
    assert !CellByteOk(body, j);
    assert j == i;
  }

  /**
   * The board `unpack` is filling, before cell (row, col) is written: cells
   * earlier in row-major order hold what was read, the rest are still EMPTY.
   */
  ghost predicate FilledBefore(b: ConnectFour, bytes: seq<uint8>, row: int, col: int)
  {
    && WellFormed(b)
    && forall r, c :: 0 <= r < b.rows && 0 <= c < b.cols ==>
         b.board[r][c] == if r < row || (r == row && c < col) then CellAt(bytes, b.cols, r, c) else Empty
  }

  /** Writing cell (row, col) from its byte moves the fill on by one cell. */
  lemma FillCell(b: ConnectFour, bytes: seq<uint8>, row: int, col: int)
    requires FilledBefore(b, bytes, row, col)
    requires 0 <= row < b.rows && 0 <= col < b.cols
    ensures FilledBefore(b.(board := b.board[row := b.board[row][col := CellAt(bytes, b.cols, row, col)]]), bytes, row, col + 1)
  {
  }

  /** A completely filled board is the decoded grid. */
  lemma FilledAll(b: ConnectFour, bytes: seq<uint8>)
    requires FilledBefore(b, bytes, b.rows, 0) && b.rows >= 0 && b.cols >= 0
    ensures b.board == DecodedGrid(bytes, b.rows, b.cols)
  {
    var decoded := DecodedGrid(bytes, b.rows, b.cols);
    forall row | 0 <= row < b.rows
      ensures b.board[row] == decoded[row]
    {
    }
  }

  /**
   * `unpack`: parse the hex, read the header, make a fresh board of that size
   * and overwrite its cells one by one in row-major order.
   */
  method Unpack(value: string) returns (r: Result<ConnectFour, UnpackError>)
    ensures r == Unpacked(value)
  {
    var parsed := FromHex(value);
    if parsed.None? {
      return Err(InvalidHex);
    }
    var bytes := parsed.value;
    if |bytes| < 2 {
      return Err(ShortHeader);
    }
    var rows: int, cols: int := bytes[0], bytes[1];
    ghost var body := bytes[2..];
    var empty := New(rows, cols);
    for row := 0 to rows
      invariant empty.rows == rows && empty.cols == cols
      invariant FilledBefore(empty, bytes, row, 0)
      invariant forall i :: 0 <= i < row * cols ==> CellByteOk(body, i)
    {
      for col := 0 to cols
        invariant empty.rows == rows && empty.cols == cols
        invariant FilledBefore(empty, bytes, row, col)
        invariant forall i :: 0 <= i < row * cols + col ==> CellByteOk(body, i)
      {
        var offset := CellOffset(cols, row, col);
        CellOffsetBelow(rows, cols, row, col);
        if offset >= |bytes| {
          FirstBadCellIs(body, rows * cols, offset - 2);
          return Err(ShortCells(offset));
        }
        var cell := FromCode(bytes[offset]);
        if cell.None? {
          FirstBadCellIs(body, rows * cols, offset - 2);
          return Err(InvalidCell(offset, bytes[offset]));
        }
        FillCell(empty, bytes, row, col);
        empty := empty.(board := empty.board[row := empty.board[row][col := cell.value]]);
      }
      assert row * cols + cols == (row + 1) * cols;
    }
    FilledAll(empty, bytes);
    return Ok(empty);
  }

  /**
   * Round trip: `unpack(pack(b))` has b's dimensions and b's cell at every
   * (row, col), for any board whose dimensions fit the header.
   */
  lemma PackUnpackRoundTrip(b: ConnectFour)
    requires WellFormed(b) && HeaderFits(b)
    ensures Unpacked(Hex(Packed(b))) == Ok(b)
  {
    var bytes := Packed(b);
    HexRoundTrip(bytes);
    CellBytesLength(b.board, b.cols);
    assert bytes[2..] == CellBytes(b.board);
    assert Decode(bytes).Ok?;
    var decoded := Decode(bytes).value;
    forall row, col | 0 <= row < b.rows && 0 <= col < b.cols
      ensures decoded.board[row][col] == b.board[row][col]
    {
      PackLayout(b, row, col);
      DecodeReadsCellOffset(bytes, row, col);
    }
    forall row | 0 <= row < b.rows
      ensures decoded.board[row] == b.board[row]
    {
    }
    assert decoded.board == b.board;
  }

  /** A fresh board survives the round trip as an all-EMPTY board of its size. */
  lemma NewBoardRoundTrip(rows: int, cols: int)
    requires 0 <= rows <= 255 && 0 <= cols <= 255
    ensures Unpacked(Hex(Packed(New(rows, cols)))) == Ok(New(rows, cols))
  {
    PackUnpackRoundTrip(New(rows, cols));
  }
}
