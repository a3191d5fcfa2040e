/**
 * The browser extension's popup: the list of videos the content script detected on the
 * page, de-duplicated by source, the "copy all" action and the badge colour of each kind.
 */
module ExtensionPopup {
  import opened Wrappers
  import Strings

  /** A detected media element; `kind` is "video", "iframe" or "stream" as the page reports it. */
  datatype DetectedVideo = DetectedVideo(kind: string, src: string)

  /** `self.findIndex((t) => t.src === src)`: the first position with that source, or -1. */
  function FindIndex(vs: seq<DetectedVideo>, src: string): (i: int)
    ensures -1 <= i < |vs|
    ensures i >= 0 ==> vs[i].src == src
  {
    if vs == [] then -1
    else if vs[0].src == src then 0
    else
      var j := FindIndex(vs[1..], src);
      if j == -1 then -1 else j + 1
  }

  /** The position found is the first with the source, so -1 means there is none. */
  lemma {:induction false} FindIndexFirst(vs: seq<DetectedVideo>, src: string, k: nat)
    requires k < |vs| && vs[k].src == src
    ensures 0 <= FindIndex(vs, src) <= k
  {
    if vs[0].src != src {
      FindIndexFirst(vs[1..], src, k - 1);
    }
  }

  /** `self.filter((v, i) => i === findIndex(v.src))` over the first `n` positions of `self`. */
  function FilterFirst(self: seq<DetectedVideo>, n: nat): seq<DetectedVideo>
    requires n <= |self|
  {
    if n == 0 then []
    else
      var v := self[n - 1];
      FilterFirst(self, n - 1) + (if n - 1 == FindIndex(self, v.src) then [v] else [])
  }

  /** The popup's duplicate removal. */
  function Dedupe(vs: seq<DetectedVideo>): (r: seq<DetectedVideo>)
    ensures |r| <= |vs|
    ensures forall v :: v in r ==> v in vs
  {
    FilterFirstLength(vs, |vs|);
    FilterFirstKept(vs, |vs|);
    FilterFirst(vs, |vs|)
  }

  predicate DistinctSrcs(vs: seq<DetectedVideo>) {
    forall a, b :: 0 <= a < b < |vs| ==> vs[a].src != vs[b].src
  }

  /** Every kept element is the first occurrence of its source, among the first `n` positions. */
  lemma {:induction false} FilterFirstKept(self: seq<DetectedVideo>, n: nat)
    requires n <= |self|
    ensures forall a :: 0 <= a < |FilterFirst(self, n)| ==>
      0 <= FindIndex(self, FilterFirst(self, n)[a].src) < n
      && FilterFirst(self, n)[a] == self[FindIndex(self, FilterFirst(self, n)[a].src)]
  {
    if n > 0 {
      FilterFirstKept(self, n - 1);
      var prev := FilterFirst(self, n - 1);
      var r := FilterFirst(self, n);
      var v := self[n - 1];
      if n - 1 == FindIndex(self, v.src) {
        assert r == prev + [v];
        assert r[|prev|] == v;
      } else {
        assert r == prev;
      }
      forall a | 0 <= a < |r|
        ensures 0 <= FindIndex(self, r[a].src) < n && r[a] == self[FindIndex(self, r[a].src)]
      {
        if a < |prev| {
          assert r[a] == prev[a];
          assert 0 <= FindIndex(self, prev[a].src) < n - 1;
        } else {
          assert r[a] == v;
          assert FindIndex(self, v.src) == n - 1;
        }
      }
    }
  }

  /** The kept elements appear in the order of their first occurrences. */
  lemma {:induction false} FilterFirstOrdered(self: seq<DetectedVideo>, n: nat)
    requires n <= |self|
    ensures forall a, b :: 0 <= a < b < |FilterFirst(self, n)| ==>
      FindIndex(self, FilterFirst(self, n)[a].src) < FindIndex(self, FilterFirst(self, n)[b].src)
  {
    if n > 0 {
      FilterFirstOrdered(self, n - 1);
      FilterFirstKept(self, n - 1);
      var prev := FilterFirst(self, n - 1);
      var r := FilterFirst(self, n);
      var v := self[n - 1];
      if n - 1 == FindIndex(self, v.src) {
        assert r == prev + [v];
        forall a, b | 0 <= a < b < |r|
          ensures FindIndex(self, r[a].src) < FindIndex(self, r[b].src)
        {
          assert r[a] == prev[a];
          if b < |prev| {
            assert r[b] == prev[b];
          } else {
            assert r[b] == v;
            assert FindIndex(self, prev[a].src) < n - 1;
          }
        }
      } else {
        assert r == prev;
      }
    }
  }

  /** The first occurrence of every source among the first `n` positions is kept. */
  lemma {:induction false} FilterFirstCovers(self: seq<DetectedVideo>, n: nat)
    requires n <= |self|
    ensures forall k :: 0 <= k < n ==>
      0 <= FindIndex(self, self[k].src) <= k && self[FindIndex(self, self[k].src)] in FilterFirst(self, n)
  {
    if n > 0 {
      FilterFirstCovers(self, n - 1);
      var prev := FilterFirst(self, n - 1);
      var v := self[n - 1];
      var f := FindIndex(self, v.src);
      var r := FilterFirst(self, n);
      assert forall x :: x in prev ==> x in r by {
        assert r == prev + (if n - 1 == f then [v] else []);
      }
      forall k | 0 <= k < n
        ensures 0 <= FindIndex(self, self[k].src) <= k && self[FindIndex(self, self[k].src)] in r
      {
        FindIndexFirst(self, self[k].src, k);
        if k < n - 1 {
          assert self[FindIndex(self, self[k].src)] in prev;
        } else if f == n - 1 {
          assert r == prev + [v];
          assert v in r;
        } else {
          assert self[f].src == v.src;
          assert self[f] in prev;
        }
      }
    }
  }

  /**
   * The de-duplicated list has pairwise distinct sources, keeps only first occurrences in
   * their original order, and still represents every source of the input.
   */
  lemma DedupeProperties(vs: seq<DetectedVideo>)
    ensures var r := Dedupe(vs);
      DistinctSrcs(r)
      && |r| <= |vs|
      && (forall a :: 0 <= a < |r| ==> 0 <= FindIndex(vs, r[a].src) && r[a] == vs[FindIndex(vs, r[a].src)])
      && (forall a, b :: 0 <= a < b < |r| ==> FindIndex(vs, r[a].src) < FindIndex(vs, r[b].src))
      && (forall k :: 0 <= k < |vs| ==> exists a :: 0 <= a < |r| && r[a].src == vs[k].src)
  {
    var r := Dedupe(vs);
    FilterFirstKept(vs, |vs|);
    FilterFirstOrdered(vs, |vs|);
    FilterFirstCovers(vs, |vs|);
    FilterFirstLength(vs, |vs|);
    forall k | 0 <= k < |vs|
      ensures exists a :: 0 <= a < |r| && r[a].src == vs[k].src
    {
      var x := vs[FindIndex(vs, vs[k].src)];
      var a :| 0 <= a < |r| && r[a] == x;
    }
  }

  lemma {:induction false} FilterFirstLength(self: seq<DetectedVideo>, n: nat)
    requires n <= |self|
    ensures |FilterFirst(self, n)| <= n
  {
    if n > 0 {
      FilterFirstLength(self, n - 1);
    }
  }

  /** A list whose sources are already distinct passes through unchanged. */
  lemma DedupeDistinctUnchanged(vs: seq<DetectedVideo>)
    requires DistinctSrcs(vs)
    ensures Dedupe(vs) == vs
  {
    FilterFirstPrefix(vs, |vs|);
  }

  lemma {:induction false} FilterFirstPrefix(vs: seq<DetectedVideo>, n: nat)
    requires DistinctSrcs(vs) && n <= |vs|
    ensures FilterFirst(vs, n) == vs[..n]
  {
    if n > 0 {
      FilterFirstPrefix(vs, n - 1);
      var v := vs[n - 1];
      FindIndexFirst(vs, v.src, n - 1);
      assert FindIndex(vs, v.src) == n - 1;
      assert vs[..n] == vs[..n - 1] + [v];
    }
  }

  /** De-duplicating twice is the same as once. */
  lemma DedupeIdempotent(vs: seq<DetectedVideo>)
    ensures Dedupe(Dedupe(vs)) == Dedupe(vs)
  {
    DedupeProperties(vs);
    DedupeDistinctUnchanged(Dedupe(vs));
  }

  /** `videos.map(v => v.src)`. */
  function Srcs(vs: seq<DetectedVideo>): seq<string> {
    seq(|vs|, k requires 0 <= k < |vs| => vs[k].src)
  }

  /** The text "copy all" puts on the clipboard: one source per line. */
  function AllUrls(vs: seq<DetectedVideo>): (r: string)
    ensures vs == [] ==> r == ""
    ensures |vs| == 1 ==> r == vs[0].src
    ensures forall k :: 0 <= k < |vs| ==> |vs[k].src| <= |r|
  {
    var srcs := Srcs(vs);
    assert forall k :: 0 <= k < |vs| ==> srcs[k] == vs[k].src;
    Strings.JoinLength(srcs, '\n');
    Strings.Join(srcs, '\n')
  }

  /** "Copy all" does nothing exactly when there are no videos, or a single one with an empty source. */
  lemma AllUrlsEmpty(vs: seq<DetectedVideo>)
    ensures AllUrls(vs) == "" <==> |vs| == 0 || (|vs| == 1 && vs[0].src == "")
  {
    Strings.JoinEmpty(Srcs(vs), '\n');
  }

  /** Splitting the copied text at line breaks gives back every source, in order. */
  lemma AllUrlsRecoverable(vs: seq<DetectedVideo>)
    requires |vs| >= 1
    requires forall k :: 0 <= k < |vs| ==> '\n' !in vs[k].src
    ensures Strings.Split(AllUrls(vs), '\n') == Srcs(vs)
  {
    Strings.SplitJoin(Srcs(vs), '\n');
  }

  const IframeColor := "bg-purple-500/20 text-purple-400"
  const StreamColor := "bg-green-500/20 text-green-400"
  const VideoColor := "bg-blue-500/20 text-blue-400"

  /** The badge colour of a kind: iframes purple, streams green, anything else blue. */
  function GetTypeColor(kind: string): (c: string)
    ensures kind == "iframe" <==> c == IframeColor
    ensures kind == "stream" <==> c == StreamColor
    ensures kind != "iframe" && kind != "stream" <==> c == VideoColor
  {
    if kind == "iframe" then IframeColor
    else if kind == "stream" then StreamColor
    else VideoColor
  }

  /** The popup component's state, plus the clipboard it writes to. */
  class PopupState {
    var videos: seq<DetectedVideo>
    var loading: bool
    var status: Option<string>
    var clipboard: string

    constructor (clipboard: string)
      ensures videos == [] && loading && status == None && this.clipboard == clipboard
    {
      videos := [];
      loading := true;
      status := None;
      this.clipboard := clipboard;
    }

    /**
     * The content script's answer: a list of videos (`Some`) replaces the shown list by its
     * de-duplicated form, an answer without one leaves it; either way loading ends.
     */
    method HandleResponse(response: Option<seq<DetectedVideo>>)
      modifies this
      ensures response.Some? ==> videos == Dedupe(response.value)
      ensures response.None? ==> videos == old(videos)
      ensures !loading && status == old(status) && clipboard == old(clipboard)
    {
      if response.Some? {
        var unique := Dedupe(response.value);
        videos := unique;
      }
      loading := false;
    }

    /** `copyToClipboard`: a successful write reports "Copied!", a rejected one "Failed to copy.". */
    method CopyToClipboard(text: string, writeSucceeds: bool)
      modifies this
      ensures writeSucceeds ==> clipboard == text && status == Some("Copied!")
      ensures !writeSucceeds ==> clipboard == old(clipboard) && status == Some("Failed to copy.")
      ensures videos == old(videos) && loading == old(loading)
    {
      if writeSucceeds {
        clipboard := text;
        status := Some("Copied!");
      } else {
        status := Some("Failed to copy.");
      }
    }

    /**
     * `copyAll`: with a non-empty text it copies every source, one per line, and then reports
     * "All URLs copied!", whatever the clipboard write did; with an empty text nothing happens.
     */
    method CopyAll(writeSucceeds: bool)
      modifies this
      ensures AllUrls(old(videos)) == "" ==>
        clipboard == old(clipboard) && status == old(status)
      ensures AllUrls(old(videos)) != "" ==>
        clipboard == (if writeSucceeds then AllUrls(old(videos)) else old(clipboard))
        && status == Some("All URLs copied!")
      ensures videos == old(videos) && loading == old(loading)
    {
      var allUrls := AllUrls(videos);
      if allUrls != "" {
        CopyToClipboard(allUrls, writeSucceeds);
        status := Some("All URLs copied!");
      }
    }
  }
}
