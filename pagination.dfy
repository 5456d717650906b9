/**
 * The vertical cursor of the report's detail table (app.py:110-149), in
 * integer tenths of a point on a letter page (792 pt high, 1 inch = 72 pt).
 * Each row moves the cursor down 15 pt; once the cursor has dropped below the
 * one-inch bottom margin, the page is closed and the cursor returns to one
 * inch below the top edge.
 */
module Pagination {
  /** One inch. */
  const INCH: int := 720
  /** Height of a letter page. */
  const PAGE_HEIGHT: int := 7920
  /** Width of a letter page. */
  const PAGE_WIDTH: int := 6120
  /** Height of one detail row (15 pt). */
  const ROW_STEP: int := 150
  /** Where the cursor restarts on a new page: `height - inch`. */
  const PAGE_TOP: int := PAGE_HEIGHT - INCH
  /** Where the first detail row is drawn: `height - 1.8 * inch`, then down by
      20, 20, 60, 25 and 20 points past the summary and the column headings. */
  const FIRST_ROW: int := PAGE_HEIGHT - 1296 - 200 - 200 - 600 - 250 - 200

  /** Rows that fit on the first page. */
  const FIRST_PAGE_ROWS: nat := 30
  /** Rows that fit on every later page. */
  const PAGE_ROWS: nat := 44

  /** After drawing at `y`, the cursor falls below the bottom margin (`y_pos < inch`). */
  predicate BreaksAfter(y: int)
  {
    y - ROW_STEP < INCH
  }

  /** The cursor after drawing a row at `y` (app.py:146-149). */
  function NextCursor(y: int): (next: int)
    ensures INCH <= y <= PAGE_TOP ==> INCH <= next <= PAGE_TOP
    ensures next == PAGE_TOP || (next == y - ROW_STEP && next >= INCH)
  {
    if BreaksAfter(y) then PAGE_TOP else y - ROW_STEP
  }

  /** The cursor at which detail row `k` (from 0) is drawn; it always lies between
      the bottom margin and one inch below the top. */
  function Cursor(k: nat): (y: int)
    ensures INCH <= y <= PAGE_TOP
  {
    if k == 0 then FIRST_ROW else NextCursor(Cursor(k - 1))
  }

  /** The page breaks issued before row `k` is drawn. */
  function BreaksBefore(k: nat): nat
  {
    if k == 0 then 0 else BreaksBefore(k - 1) + (if BreaksAfter(Cursor(k - 1)) then 1 else 0)
  }

  /** The page (from 0) a row lands on: 30 rows on the first page, 44 on each later one. */
  function PageOf(k: nat): nat
  {
    if k < FIRST_PAGE_ROWS then 0 else 1 + (k - FIRST_PAGE_ROWS) / PAGE_ROWS
  }

  /** The position of a row within its page. */
  function SlotOf(k: nat): nat
  {
    if k < FIRST_PAGE_ROWS then k else (k - FIRST_PAGE_ROWS) % PAGE_ROWS
  }

  lemma ModStep(m: nat)
    ensures (m + 1) % PAGE_ROWS == if m % PAGE_ROWS == PAGE_ROWS - 1 then 0 else m % PAGE_ROWS + 1
    ensures (m + 1) / PAGE_ROWS == if m % PAGE_ROWS == PAGE_ROWS - 1 then m / PAGE_ROWS + 1 else m / PAGE_ROWS
  {
  }

  /** Closed form of the cursor: row `k` sits `SlotOf(k)` steps below the top of
      its page, and the page it lands on is the number of breaks before it. */
  lemma {:induction false} CursorClosedForm(k: nat)
    ensures Cursor(k) == (if k < FIRST_PAGE_ROWS then FIRST_ROW else PAGE_TOP) - ROW_STEP * SlotOf(k)
    ensures BreaksBefore(k) == PageOf(k)
  {
    if k > 0 {
      CursorClosedForm(k - 1);
      if k - 1 >= FIRST_PAGE_ROWS {
        ModStep(k - 1 - FIRST_PAGE_ROWS);
      }
    }
  }

  /** A break follows row `k` exactly when it is the last row its page holds. */
  lemma BreakPositions(k: nat)
    ensures BreaksAfter(Cursor(k)) <==>
      k == FIRST_PAGE_ROWS - 1 || (k >= FIRST_PAGE_ROWS && SlotOf(k) == PAGE_ROWS - 1)
  {
    CursorClosedForm(k);
  }

  /** Within a page the cursor drops by one row height; across a break it returns
      to the top margin, and only when the drop reached the bottom margin. */
  lemma CursorStep(k: nat)
    ensures !BreaksAfter(Cursor(k)) ==> Cursor(k + 1) == Cursor(k) - ROW_STEP && PageOf(k + 1) == PageOf(k)
    ensures BreaksAfter(Cursor(k)) ==> Cursor(k + 1) == PAGE_TOP && PageOf(k + 1) == PageOf(k) + 1
  {
    CursorClosedForm(k);
    CursorClosedForm(k + 1);
  }

  /** Sixty detail rows overflow onto a second page exactly once. */
  lemma SixtyRowsBreakOnce()
    ensures BreaksBefore(60) == 1
    ensures BreaksAfter(Cursor(FIRST_PAGE_ROWS - 1))
  {
    CursorClosedForm(60);
    BreakPositions(FIRST_PAGE_ROWS - 1);
  }
}
