/** The decision-log export: lines of text flowed down the pages of a PDF. */
module PdfPages {

  const TOP := 20
  const BOTTOM := 270
  const LINE_HEIGHT := 7
  const MAX_CHARS := 90
  const LINES_PER_PAGE := 36

  /** One `pdf.text` call: what was drawn where. */
  datatype Drawing = Drawing(page: nat, y: int, text: string)

  /** `line.slice(0, 90)`. */
  function Cut(line: string): string {
    if |line| <= MAX_CHARS then line else line[..MAX_CHARS]
  }

  /** Where the `i`-th line belongs. */
  function Placed(i: nat, line: string): Drawing {
    Drawing(i / LINES_PER_PAGE, TOP + LINE_HEIGHT * (i % LINES_PER_PAGE), Cut(line))
  }

  function PageCount(n: nat): nat {
    if n == 0 then 1 else 1 + (n - 1) / LINES_PER_PAGE
  }

  /** A new document has one page. */
  class Pdf {
    var pages: nat
    var drawn: seq<Drawing>

    constructor ()
      ensures pages == 1 && drawn == []
    {
      pages, drawn := 1, [];
    }

    method AddPage()
      modifies this
      ensures pages == old(pages) + 1 && drawn == old(drawn)
    {
      pages := pages + 1;
    }

    /** Text is drawn on the last page. */
    method Text(text: string, y: int)
      requires pages >= 1
      modifies this
      ensures pages == old(pages) && drawn == old(drawn) + [Drawing(pages - 1, y, text)]
    {
      drawn := drawn + [Drawing(pages - 1, y, text)];
    }
  }

  /** Every line is drawn once, in order, at its place; the pages are as many as that takes. */
  method ExportLines(lines: seq<string>) returns (pdf: Pdf)
    ensures fresh(pdf)
    ensures pdf.drawn == seq(|lines|, i requires 0 <= i < |lines| => Placed(i, lines[i]))
    ensures pdf.pages == PageCount(|lines|)
  {
    pdf := new Pdf();
    var y := TOP;
    for i := 0 to |lines|
      invariant fresh(pdf)
      invariant pdf.drawn == seq(i, k requires 0 <= k < i => Placed(k, lines[k]))
      invariant pdf.pages == PageCount(i)
      invariant y == if i == 0 then TOP else TOP + LINE_HEIGHT * ((i - 1) % LINES_PER_PAGE) + LINE_HEIGHT
    {
      if y > BOTTOM {
        pdf.AddPage();
        y := TOP;
      }
      pdf.Text(Cut(lines[i]), y);
      y := y + LINE_HEIGHT;
    }
  }

  /** Lines stay within the page, no two share a place, and the last one is on the last page. */
  lemma PlacesAreDistinctAndOnThePage(lines: seq<string>, i: nat, j: nat)
    requires i < |lines| && j < |lines|
    ensures TOP <= Placed(i, lines[i]).y <= BOTTOM
    ensures Placed(i, lines[i]).page < PageCount(|lines|)
    ensures i < j ==>
      var a, b := Placed(i, lines[i]), Placed(j, lines[j]);
      a.page < b.page || (a.page == b.page && a.y + LINE_HEIGHT <= b.y)
    ensures i == |lines| - 1 ==> Placed(i, lines[i]).page == PageCount(|lines|) - 1
  {
    var qi, ri, qj, rj := i / LINES_PER_PAGE, i % LINES_PER_PAGE, j / LINES_PER_PAGE, j % LINES_PER_PAGE;
    assert i == LINES_PER_PAGE * qi + ri && j == LINES_PER_PAGE * qj + rj;
  }

  /** The places in numbers: 36 lines a page, 7 apart from 20 down, each cut to 90 characters. */
  lemma PlacesInNumbers(i: nat, line: string, n: nat)
    ensures var d := Placed(i, line);
      && d.page == i / 36 && d.y == 20 + 7 * (i % 36)
      && d.text <= line && |d.text| == if |line| < 90 then |line| else 90
    ensures PageCount(n) == if n == 0 then 1 else (n + 35) / 36
  {
  }
}
