/**
 * Marking of chat messages and the test that decides which chat links lead to
 * a user's profile.
 *
 * The page is reduced to what marking reads and writes: a fixed map from an
 * element to the message container `findMessageContainer` picks for it, and
 * the sets of elements that carry the marker attribute and the highlight
 * class. Elements are identified by number.
 */
module Marking {
  import opened Wrappers

  type ElementId = nat

  class Page {
    /** `findMessageContainer`: the element that holds the whole chat line. */
    const containerOf: ElementId -> ElementId
    /** Elements that carry the `data-bot-detector-marked` attribute. */
    var markedAttr: set<ElementId>
    /** Elements that carry the `bot-detector-suspicious` class. */
    var suspiciousClass: set<ElementId>

    /** Marking sets the attribute and the class together. */
    ghost predicate Valid()
      reads this
    {
      suspiciousClass == markedAttr
    }

    constructor(containerOf: ElementId -> ElementId)
      ensures this.containerOf == containerOf
      ensures markedAttr == {} && suspiciousClass == {}
      ensures Valid()
    {
      this.containerOf := containerOf;
      markedAttr := {};
      suspiciousClass := {};
    }

    /** `isMarked`: whether the element carries the marker attribute. */
    predicate IsMarked(el: ElementId)
      reads this
    {
      el in markedAttr
    }

    /** `markSuspicious`: marks the container of `el` unless it is marked
        already, in which case nothing changes. */
    method MarkSuspicious(el: ElementId)
      modifies this
      ensures old(IsMarked(containerOf(el))) ==>
                markedAttr == old(markedAttr) && suspiciousClass == old(suspiciousClass)
      ensures !old(IsMarked(containerOf(el))) ==>
                markedAttr == old(markedAttr) + {containerOf(el)} &&
                suspiciousClass == old(suspiciousClass) + {containerOf(el)}
      ensures IsMarked(containerOf(el))
      ensures old(Valid()) ==> Valid()
    {
      var messageContainer := containerOf(el);
      if IsMarked(messageContainer) {
        return;
      }
      markedAttr := markedAttr + {messageContainer};
      suspiciousClass := suspiciousClass + {messageContainer};
    }

    /** Marking the same element twice leaves the page exactly as marking it
        once does. */
    method MarkSuspiciousTwice(el: ElementId)
      modifies this
      ensures old(IsMarked(containerOf(el))) ==>
                markedAttr == old(markedAttr) && suspiciousClass == old(suspiciousClass)
      ensures !old(IsMarked(containerOf(el))) ==>
                markedAttr == old(markedAttr) + {containerOf(el)} &&
                suspiciousClass == old(suspiciousClass) + {containerOf(el)}
    {
      MarkSuspicious(el);
      MarkSuspicious(el);
    }
  }

  /** `pathname.replace(/^\/|\/$/g, "")`: one leading and one trailing slash go;
      a lone slash is the leading one. */
  function StripSlashes(p: string): (r: string)
    ensures |r| <= |p|
  {
    var a := if |p| > 0 && p[0] == '/' then p[1..] else p;
    if |a| > 0 && a[|a| - 1] == '/' then a[..|a| - 1] else a
  }

  /** First path segments that name a site page rather than a channel. */
  const ReservedPaths: set<string> := {"directory", "settings", "subscriptions", "p"}

  /** The path rule of `isUserProfileLink`: after the slashes at either end go,
      one non-empty segment must remain and it must not be reserved. */
  predicate IsProfilePath(pathname: string)
  {
    var path := StripSlashes(pathname);
    |path| > 0 && '/' !in path && path !in ReservedPaths
  }

  /** A channel name: a single non-empty segment that is not reserved. */
  predicate IsChannelName(name: string)
  {
    name != [] && '/' !in name && name !in ReservedPaths
  }

  /** `isUserProfileLink`: `None` stands for a link without an `href`, or with
      one the URL parser rejects; otherwise the parsed pathname is tested. */
  predicate IsUserProfileLink(pathname: Option<string>)
  {
    pathname.Some? && IsProfilePath(pathname.value)
  }

  /** A path is a profile path exactly when it is a channel name with or
      without a slash on either side. */
  lemma ProfilePathExact(pathname: string)
    ensures IsProfilePath(pathname) <==>
              exists name :: IsChannelName(name) &&
                (|| pathname == name || pathname == "/" + name
                 || pathname == name + "/" || pathname == "/" + name + "/")
  {
    if IsProfilePath(pathname) {
      var name := StripSlashes(pathname);
      var a := if |pathname| > 0 && pathname[0] == '/' then pathname[1..] else pathname;
      if |pathname| > 0 && pathname[0] == '/' {
        assert pathname == "/" + a;
      }
      if |a| > 0 && a[|a| - 1] == '/' {
        assert a == name + "/";
      }
      assert IsChannelName(name);
    }
    if exists name :: IsChannelName(name) &&
                (|| pathname == name || pathname == "/" + name
                 || pathname == name + "/" || pathname == "/" + name + "/") {
      var name :| IsChannelName(name) &&
                (|| pathname == name || pathname == "/" + name
                 || pathname == name + "/" || pathname == "/" + name + "/");
      StripDecorated(name);
    }
  }

  /** Stripping undoes each way of putting slashes around a channel name. */
  lemma StripDecorated(name: string)
    requires name != [] && '/' !in name
    ensures StripSlashes(name) == name
    ensures StripSlashes("/" + name) == name
    ensures StripSlashes(name + "/") == name
    ensures StripSlashes("/" + name + "/") == name
  {
    assert name[0] in name && name[|name| - 1] in name;
    assert ("/" + name)[1..] == name;
    assert (name + "/")[..|name|] == name;
    assert ("/" + name + "/")[1..] == name + "/";
    assert ("/" + name + "/")[0] == '/';
    assert (name + "/")[0] == name[0];
  }

  /** Links with no usable address and the bare root are not profile links. */
  lemma NoPathExamples()
    ensures !IsUserProfileLink(None)
    ensures !IsUserProfileLink(Some("/"))
  {
    assert StripSlashes("/") == "";
  }

  /** The reserved pages are not profile links, with or without a closing slash. */
  lemma ReservedPathExamples()
    ensures !IsUserProfileLink(Some("/directory"))
    ensures !IsUserProfileLink(Some("/p/"))
  {
    StripDecorated("directory");
    assert "/directory" == "/" + "directory";
    StripDecorated("p");
    assert "/p/" == "/" + "p" + "/";
  }

  /** A path of two segments is not a profile link. */
  lemma DeepPathExample()
    ensures !IsUserProfileLink(Some("/videos/123"))
  {
    var path := StripSlashes("/videos/123");
    assert path == "videos/123";
    assert path[6] == '/';
  }

  /** A channel path is a profile link, with or without a closing slash. */
  lemma ChannelPathExamples()
    ensures IsUserProfileLink(Some("/xqc")) && IsUserProfileLink(Some("/xqc/"))
  {
    StripDecorated("xqc");
    assert "xqc" !in ReservedPaths;
  }
}
