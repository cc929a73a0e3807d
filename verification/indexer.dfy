/** The list transformations of `DocumentIndexer` (index_document.py) that
    prepare a PDF for the vector store: keeping and numbering the non-blank
    pages, flattening the splitter's chunks, and the per-chunk metadata.
    The PDF loader and the text splitter are parameters. */
module Indexer {
  import opened Outcomes
  import opened Text

  const PAGE_PREFIX: string := "페이지 "
  const LABEL_SEPARATOR: string := ": "
  const DOCUMENT_TYPE: string := "tax_law_2025"
  const LANGUAGE: string := "ko"

  /** The text `load_pdf` keeps for the page at 0-based position `i`: its
      stripped content, after the 1-based page number. */
  function PageLabel(i: nat, text: string): string {
    PAGE_PREFIX + Decimal(i + 1) + LABEL_SEPARATOR + text
  }

  /** The number of decimal digits at the front of `s`. */
  function DigitRun(s: string): (n: nat)
    ensures n <= |s| && AllDigits(s[..n])
    ensures n < |s| ==> !IsDigit(s[n])
    decreases |s|
  {
    if |s| > 0 && IsDigit(s[0]) then
      var n := 1 + DigitRun(s[1..]);
      assert s[..n] == [s[0]] + s[1..][..n - 1];
      n
    else 0
  }

  /** A page label taken apart: the 1-based page number and the page text. */
  datatype Label = Label(page: nat, text: string)

  /** Reads a page label back into its page number and its text. */
  function ReadLabel(s: string): (r: Option<Label>)
    ensures r.Some? ==> r.value.page >= 1
  {
    var p := |PAGE_PREFIX|;
    if |s| < p || s[..p] != PAGE_PREFIX then None
    else
      var rest := s[p..];
      var n := DigitRun(rest);
      if n == 0 || rest[0] == '0' || |rest| < n + 2 || rest[n..n + 2] != LABEL_SEPARATOR then None
      else
        var number := DigitsValue(rest[..n]);
        if number == 0 then None else Some(Label(number, rest[n + 2..]))
  }

  lemma DigitRunStops(d: string, t: string)
    requires AllDigits(d)
    requires t != [] && !IsDigit(t[0])
    ensures DigitRun(d + t) == |d|
    decreases |d|
  {
    if d != [] {
      assert (d + t)[0] == d[0];
      assert (d + t)[1..] == d[1..] + t;
      DigitRunStops(d[1..], t);
    } else {
      assert d + t == t;
    }
  }

  /** A page label can be read back: the number is the page's 1-based
      position and the text is what followed it. */
  lemma ReadPageLabel(i: nat, text: string)
    ensures ReadLabel(PageLabel(i, text)) == Some(Label(i + 1, text))
  {
    var s := PageLabel(i, text);
    var d := Decimal(i + 1);
    var p := |PAGE_PREFIX|;
    assert s == PAGE_PREFIX + (d + (LABEL_SEPARATOR + text));
    assert s[..p] == PAGE_PREFIX;
    var rest := s[p..];
    assert rest == d + (LABEL_SEPARATOR + text);
    DigitRunStops(d, LABEL_SEPARATOR + text);
    assert rest[..|d|] == d;
    assert rest[|d|..|d| + 2] == LABEL_SEPARATOR;
    assert rest[|d| + 2..] == text;
    DecimalRoundTrip(i + 1);
  }

  /** The page number a label carries. */
  function PageNumber(s: string): int {
    match ReadLabel(s)
    case Some(r) => r.page
    case None => 0
  }

  /** Reference definition of `load_pdf`'s loop: the labels of the pages
      whose stripped content is not empty, in page order. */
  function Kept(pages: seq<string>): seq<string>
    decreases |pages|
  {
    if |pages| == 0 then []
    else
      var i := |pages| - 1;
      var text := Strip(pages[i]);
      if text == [] then Kept(pages[..i]) else Kept(pages[..i]) + [PageLabel(i, text)]
  }

  /** The 0-based positions of the pages that are kept, in order. */
  function KeptIndices(pages: seq<string>): (r: seq<nat>)
    ensures forall k :: 0 <= k < |r| ==> r[k] < |pages|
    decreases |pages|
  {
    if |pages| == 0 then []
    else
      var i := |pages| - 1;
      if Strip(pages[i]) == [] then KeptIndices(pages[..i]) else KeptIndices(pages[..i]) + [i]
  }

  /** `load_pdf`'s loop over the loaded pages (lines 62-66): strip each page,
      drop it if nothing is left, otherwise label it with its position in the
      PDF. Numbering uses the position among all pages, so the numbers skip
      the blank pages. */
  method LoadPages(pages: seq<string>) returns (texts: seq<string>)
    ensures texts == Kept(pages)
  {
    texts := [];
    var i := 0;
    while i < |pages|
      invariant 0 <= i <= |pages|
      invariant texts == Kept(pages[..i])
    {
      assert pages[..i + 1][..i] == pages[..i];
      var text := Strip(pages[i]);
      if text != [] {
        texts := texts + [PageLabel(i, text)];
      }
      i := i + 1;
    }
    assert pages[..i] == pages;
  }

  lemma {:induction false} KeptLength(pages: seq<string>)
    ensures |Kept(pages)| == |KeptIndices(pages)|
    decreases |pages|
  {
    if |pages| > 0 {
      KeptLength(pages[..|pages| - 1]);
    }
  }

  /** Each element is below the next. */
  predicate Rising(s: seq<int>) {
    forall a, b :: 0 <= a < b < |s| ==> s[a] < s[b]
  }

  lemma {:induction false} KeptIndicesRise(pages: seq<string>)
    ensures Rising(KeptIndices(pages))
    decreases |pages|
  {
    if |pages| > 0 {
      var n := |pages| - 1;
      var prev := KeptIndices(pages[..n]);
      KeptIndicesRise(pages[..n]);
      if Strip(pages[n]) != [] {
        var idx := prev + [n];
        forall a, b | 0 <= a < b < |idx| ensures idx[a] < idx[b] {
          assert idx[a] == prev[a];
          if b < |prev| {
            assert idx[b] == prev[b];
          }
        }
      }
    }
  }

  lemma {:induction false} KeptIndicesExactly(pages: seq<string>)
    ensures forall i :: 0 <= i < |pages| ==> (i in KeptIndices(pages) <==> Strip(pages[i]) != [])
    decreases |pages|
  {
    if |pages| > 0 {
      var n := |pages| - 1;
      var init := pages[..n];
      KeptIndicesExactly(init);
      forall i | 0 <= i < |pages|
        ensures i in KeptIndices(pages) <==> Strip(pages[i]) != []
      {
        if i < n {
          assert pages[i] == init[i];
          assert i in KeptIndices(pages) <==> i in KeptIndices(init);
        }
      }
    }
  }

  lemma {:induction false} KeptAt(pages: seq<string>)
    ensures var idx := KeptIndices(pages);
      forall k :: 0 <= k < |idx| && k < |Kept(pages)| ==>
        Kept(pages)[k] == PageLabel(idx[k], Strip(pages[idx[k]])) && Strip(pages[idx[k]]) != []
    decreases |pages|
  {
    if |pages| > 0 {
      var n := |pages| - 1;
      var init := pages[..n];
      KeptAt(init);
      KeptLength(init);
      var idx := KeptIndices(pages);
      forall k | 0 <= k < |idx| && k < |Kept(pages)|
        ensures Kept(pages)[k] == PageLabel(idx[k], Strip(pages[idx[k]])) && Strip(pages[idx[k]]) != []
      {
        if k < |KeptIndices(init)| {
          assert idx[k] == KeptIndices(init)[k];
          assert Kept(pages)[k] == Kept(init)[k];
          assert pages[idx[k]] == init[idx[k]];
        } else {
          assert idx[k] == n && Strip(pages[n]) != [];
        }
      }
    }
  }

  /** The kept pages are exactly the non-blank ones: their positions rise
      strictly, a position is kept exactly when its page strips to something,
      and each kept label carries that position and the stripped text. */
  lemma KeptExactly(pages: seq<string>)
    ensures var idx := KeptIndices(pages);
      && |Kept(pages)| == |idx|
      && Rising(idx)
      && (forall i :: 0 <= i < |pages| ==> (i in idx <==> Strip(pages[i]) != []))
      && (forall k :: 0 <= k < |idx| ==>
            Kept(pages)[k] == PageLabel(idx[k], Strip(pages[idx[k]])) && Strip(pages[idx[k]]) != [])
  {
    KeptLength(pages);
    KeptIndicesRise(pages);
    KeptIndicesExactly(pages);
    KeptAt(pages);
  }

  /** What `load_pdf` returns is no longer than the page list. */
  lemma KeptNoLonger(pages: seq<string>)
    ensures |Kept(pages)| <= |pages|
  {
    KeptLength(pages);
    KeptIndicesRise(pages);
    IndicesBound(KeptIndices(pages), |pages|);
  }

  /** Every element `load_pdf` returns is the label of a page's stripped,
      non-empty content. */
  lemma KeptFromPages(pages: seq<string>, k: int)
    requires 0 <= k < |Kept(pages)|
    ensures exists i :: 0 <= i < |pages| && Strip(pages[i]) != [] && Kept(pages)[k] == PageLabel(i, Strip(pages[i]))
  {
    KeptLength(pages);
    KeptAt(pages);
    var i := KeptIndices(pages)[k];
    assert Strip(pages[i]) != [] && Kept(pages)[k] == PageLabel(i, Strip(pages[i]));
  }

  /** The page numbers read back from `load_pdf`'s output rise strictly. */
  lemma KeptPageNumbersRise(pages: seq<string>, a: int, b: int)
    requires 0 <= a < b < |Kept(pages)|
    ensures PageNumber(Kept(pages)[a]) < PageNumber(Kept(pages)[b])
  {
    KeptLength(pages);
    KeptAt(pages);
    KeptIndicesRise(pages);
    var idx := KeptIndices(pages);
    ReadPageLabel(idx[a], Strip(pages[idx[a]]));
    ReadPageLabel(idx[b], Strip(pages[idx[b]]));
  }

  /** A strictly rising sequence of positions below `n` has at most `n` elements. */
  lemma {:induction false} IndicesBound(idx: seq<nat>, n: nat)
    requires forall k :: 0 <= k < |idx| ==> idx[k] < n
    requires Rising(idx)
    ensures |idx| <= n
    decreases n
  {
    if |idx| > 0 {
      var init := idx[..|idx| - 1];
      var last := idx[|idx| - 1];
      IndicesBound(init, last);
    }
  }

  /** Reference definition of `split_text`: the splitter's chunks of each
      text, one text after the other. */
  function ChunksOf(split: string -> seq<string>, texts: seq<string>): seq<string>
    decreases |texts|
  {
    if |texts| == 0 then [] else split(texts[0]) + ChunksOf(split, texts[1..])
  }

  /** Splitting a concatenation of text lists is concatenating their splits. */
  lemma {:induction false} ChunksOfAppend(split: string -> seq<string>, a: seq<string>, b: seq<string>)
    ensures ChunksOf(split, a + b) == ChunksOf(split, a) + ChunksOf(split, b)
    decreases |a|
  {
    if |a| == 0 {
      assert a + b == b;
    } else {
      assert (a + b)[0] == a[0];
      assert (a + b)[1..] == a[1..] + b;
      ChunksOfAppend(split, a[1..], b);
    }
  }

  /** `split_text` (lines 79-85): run the splitter on each text and extend
      the chunk list with its output. */
  method SplitText(split: string -> seq<string>, texts: seq<string>) returns (chunks: seq<string>)
    ensures chunks == ChunksOf(split, texts)
  {
    chunks := [];
    var i := 0;
    while i < |texts|
      invariant 0 <= i <= |texts|
      invariant chunks == ChunksOf(split, texts[..i])
    {
      ChunksOfAppend(split, texts[..i], [texts[i]]);
      assert texts[..i + 1] == texts[..i] + [texts[i]];
      assert ChunksOf(split, [texts[i]]) == split(texts[i]) + ChunksOf(split, []);
      chunks := chunks + split(texts[i]);
      i := i + 1;
    }
    assert texts[..i] == texts;
  }

  /** Nothing is dropped or reordered: the chunks of text `i` sit, as the
      splitter returned them, right after the chunks of the texts before it. */
  lemma ChunksOfLayout(split: string -> seq<string>, texts: seq<string>, i: int)
    requires 0 <= i < |texts|
    ensures var start := |ChunksOf(split, texts[..i])|;
      && start + |split(texts[i])| <= |ChunksOf(split, texts)|
      && ChunksOf(split, texts)[start..start + |split(texts[i])|] == split(texts[i])
  {
    assert texts == texts[..i] + ([texts[i]] + texts[i + 1..]);
    ChunksOfAppend(split, texts[..i], [texts[i]] + texts[i + 1..]);
    ChunksOfAppend(split, [texts[i]], texts[i + 1..]);
    assert ChunksOf(split, [texts[i]]) == split(texts[i]) + ChunksOf(split, []);
  }

  /** The metadata stored with one chunk. */
  datatype ChunkMetadata = ChunkMetadata(
    chunkId: int,
    source: string,
    documentType: string,
    chunkSize: int,
    language: string)

  /** `create_metadata` (lines 87-100): one record per chunk, in chunk order,
      numbered from 0, sized by the chunk's length in characters, and
      otherwise the same for every chunk. */
  method CreateMetadata(pdfPath: string, chunks: seq<string>) returns (r: seq<ChunkMetadata>)
    ensures |r| == |chunks|
    ensures forall i :: 0 <= i < |r| ==> r[i].chunkId == i && r[i].chunkSize == |chunks[i]|
    ensures forall i :: 0 <= i < |r| ==>
      r[i].source == pdfPath && r[i].documentType == DOCUMENT_TYPE && r[i].language == LANGUAGE
  {
    r := [];
    var i := 0;
    while i < |chunks|
      invariant 0 <= i <= |chunks|
      invariant |r| == i
      invariant forall k :: 0 <= k < i ==>
        r[k] == ChunkMetadata(k, pdfPath, DOCUMENT_TYPE, |chunks[k]|, LANGUAGE)
    {
      r := r + [ChunkMetadata(i, pdfPath, DOCUMENT_TYPE, |chunks[i]|, LANGUAGE)];
      i := i + 1;
    }
  }
}
