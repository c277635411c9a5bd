/** Building the link graph of a corpus from the links extracted from each page
    (the set logic of `crawl`; listing the directory, reading the files and
    matching anchors with a regular expression are not modelled). */
module Crawling {
  import opened Graph

  /** `extracted` maps each page of the corpus to the link targets found in
      it, in the order they were found and with repetitions. Every page keeps
      the targets it names, other than itself, that are pages of the corpus. */
  method FilterLinks(extracted: map<Page, seq<Page>>) returns (pages: Corpus)
    ensures pages.Keys == extracted.Keys
    ensures forall f, l | f in pages :: l in pages[f] <==> l in extracted[f] && l != f && l in extracted
    ensures WellFormed(pages)
    ensures forall f | f in pages :: f !in pages[f]
  {
    pages := map[];
    // First pass: the set of a page's links, without a link to the page itself.
    var todo := extracted.Keys;
    while todo != {}
      invariant todo <= extracted.Keys
      invariant pages.Keys == extracted.Keys - todo
      invariant forall f | f in pages :: pages[f] == Elements(extracted[f]) - {f}
      decreases todo
    {
      var filename :| filename in todo;
      pages := pages[filename := Elements(extracted[filename]) - {filename}];
      todo := todo - {filename};
    }
    // Second pass: keep only the links to pages of the corpus.
    var rest := pages.Keys;
    while rest != {}
      invariant rest <= pages.Keys
      invariant pages.Keys == extracted.Keys
      invariant forall f | f in pages ::
        pages[f] == if f in rest then Elements(extracted[f]) - {f}
                    else (Elements(extracted[f]) - {f}) * extracted.Keys
      decreases rest
    {
      var filename :| filename in rest;
      pages := pages[filename := set link | link in pages[filename] && link in pages];
      rest := rest - {filename};
    }
  }
}
