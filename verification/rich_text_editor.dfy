/**
 * The link controls of the bio editor's menu bar: the URL typed into the
 * link box is normalised to an http(s) address and set as a link that opens
 * in a new tab; the box is then emptied and hidden.
 */
module RichTextEditor {
  import opened Strings

  const Http := "http://"
  const Https := "https://"
  const NewTab := "_blank"
  const NoOpener := "noopener noreferrer"

  /** `/^https?:\/\//`: the text starts with "http://" or "https://", in exactly that case. */
  predicate HasScheme(url: string) {
    StartsWith(url, Http) || StartsWith(url, Https)
  }

  /** The href `addLink` sets: the text itself when it has a scheme, else "https://" before it. */
  function NormalizeUrl(url: string): (href: string)
    ensures HasScheme(href)
    ensures href == url || href == Https + url
    ensures HasScheme(url) <==> href == url
  {
    if HasScheme(url) then url
    else
      assert StartsWith(Https + url, Https) by {
        assert (Https + url)[..|Https|] == Https;
      }
      Https + url
  }

  /** Normalising twice is normalising once. */
  lemma NormalizeIdempotent(url: string)
    ensures NormalizeUrl(NormalizeUrl(url)) == NormalizeUrl(url)
  {
  }

  /** The typed text always survives at the end of the href. */
  lemma NormalizeKeepsText(url: string)
    ensures var href := NormalizeUrl(url);
      |url| <= |href| && href[|href| - |url|..] == url
  {
    var href := NormalizeUrl(url);
    if href != url {
      assert href[|Https|..] == url;
    }
  }

  /** The test is case-sensitive: an upper-case scheme is not recognised and gets a second one. */
  lemma NormalizeUpperCaseScheme(rest: string)
    ensures NormalizeUrl("HTTP://" + rest) == Https + "HTTP://" + rest
  {
    var url := "HTTP://" + rest;
    assert url[0] != Http[0] && url[0] != Https[0];
    assert !StartsWith(url, Http) && !StartsWith(url, Https);
  }

  /** The attributes of a link mark set by `setLink`. */
  datatype LinkMark = LinkMark(href: string, target: string, rel: string)

  /** A link that opens in a new tab, without opener, at an http(s) address. */
  predicate SafeLink(m: LinkMark) {
    HasScheme(m.href) && m.target == NewTab && m.rel == NoOpener
  }

  /** The menu bar's link state, and the links it has set in the document. */
  class MenuBar {
    var linkUrl: string
    var showLinkInput: bool
    /** Each link `addLink` has set, in order. */
    var links: seq<LinkMark>

    /** Every link the menu bar has set is safe. */
    predicate Valid()
      reads this
    {
      forall k :: 0 <= k < |links| ==> SafeLink(links[k])
    }

    constructor ()
      ensures Valid()
      ensures linkUrl == [] && !showLinkInput && links == []
    {
      linkUrl := [];
      showLinkInput := false;
      links := [];
    }

    /** The link box's `onChange`. */
    method SetLinkUrl(value: string)
      modifies this
      requires Valid()
      ensures Valid()
      ensures linkUrl == value && showLinkInput == old(showLinkInput) && links == old(links)
    {
      linkUrl := value;
    }

    /** `toggleLinkInput`: shows a hidden link box and hides a shown one. */
    method ToggleLinkInput()
      modifies this
      requires Valid()
      ensures Valid()
      ensures showLinkInput == !old(showLinkInput)
      ensures linkUrl == old(linkUrl) && links == old(links)
    {
      showLinkInput := !showLinkInput;
    }

    /**
     * `addLink`: a non-empty URL becomes a link at its normalised address,
     * opening in a new tab; an empty one sets nothing. Either way the box
     * is emptied and hidden.
     */
    method AddLink()
      modifies this
      requires Valid()
      ensures Valid()
      ensures links == old(links) + if old(linkUrl) == [] then [] else [LinkMark(NormalizeUrl(old(linkUrl)), NewTab, NoOpener)]
      ensures linkUrl == [] && !showLinkInput
    {
      if linkUrl != [] {
        var url := NormalizeUrl(linkUrl);
        links := links + [LinkMark(url, NewTab, NoOpener)];
      }
      linkUrl := [];
      showLinkInput := false;
    }
  }
}
