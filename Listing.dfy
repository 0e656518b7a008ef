/** The directory listing `init` scans, and its screenshot filter. */
module Listing {

  /** One entry of the screenshots directory: its name and whether it is a regular file. */
  datatype Entry = Entry(name: string, isFile: bool)

  /** `File.listFiles()` yields null when the directory cannot be read. */
  datatype Option<T> = None | Some(value: T)

  const PNG_SUFFIX := ".png"

  /** `String.endsWith`: an exact, case-sensitive suffix match. */
  predicate EndsWith(s: string, suffix: string)
    ensures EndsWith(s, suffix) <==> |suffix| <= |s| && s == s[..|s| - |suffix|] + suffix
  {
    |suffix| <= |s| && s[|s| - |suffix|..] == suffix
  }

  /** A regular file whose name is some stem followed by `.png`. */
  predicate IsScreenshot(e: Entry)
  {
    e.isFile && EndsWith(e.name, PNG_SUFFIX)
  }

  /** The filter accepts exactly the regular files named by some stem followed by `.png`. */
  lemma IsScreenshotStem(e: Entry)
    ensures IsScreenshot(e) <==> e.isFile && exists stem: string :: e.name == stem + PNG_SUFFIX
  {
    if IsScreenshot(e) {
      var stem := e.name[..|e.name| - |PNG_SUFFIX|];
      assert e.name == stem + PNG_SUFFIX;
    }
    forall stem: string | e.name == stem + PNG_SUFFIX
      ensures EndsWith(e.name, PNG_SUFFIX)
    {
      assert |e.name| - |PNG_SUFFIX| == |stem|;
      assert e.name[|stem|..] == PNG_SUFFIX;
    }
  }

  /** The entries `init` turns into tiles, in listing order. */
  function Screenshots(files: seq<Entry>): (r: seq<Entry>)
    ensures |r| <= |files|
    decreases |files|
  {
    if files == [] then []
    else
      var last := files[|files| - 1];
      Screenshots(files[..|files| - 1]) + (if IsScreenshot(last) then [last] else [])
  }

  /** An entry is kept exactly when it is listed and is a png file. */
  lemma {:induction false} ScreenshotsMembers(files: seq<Entry>, e: Entry)
    ensures e in Screenshots(files) <==> e in files && IsScreenshot(e)
    decreases |files|
  {
    if files != [] {
      var init, last := files[..|files| - 1], files[|files| - 1];
      assert files == init + [last];
      ScreenshotsMembers(init, e);
    }
  }

  function Names(es: seq<Entry>): (r: seq<string>)
    ensures |r| == |es|
    ensures forall k :: 0 <= k < |es| ==> r[k] == es[k].name
  {
    seq(|es|, k requires 0 <= k < |es| => es[k].name)
  }

  /** Each png file is kept as often as it is listed, and nothing else is kept. */
  lemma {:induction false} ScreenshotsCount(files: seq<Entry>, e: Entry)
    ensures multiset(Screenshots(files))[e] == if IsScreenshot(e) then multiset(files)[e] else 0
    decreases |files|
  {
    if files != [] {
      var init, last := files[..|files| - 1], files[|files| - 1];
      assert files == init + [last];
      ScreenshotsCount(init, e);
    }
  }

  lemma NamesAppend(es: seq<Entry>, e: Entry)
    ensures Names(es + [e]) == Names(es) + [e.name]
  {
  }

  /** The filter extends entry by entry, which is how the `init` loop consumes it. */
  lemma ScreenshotsExtend(files: seq<Entry>, j: nat)
    requires j < |files|
    ensures Screenshots(files[..j + 1]) ==
      Screenshots(files[..j]) + (if IsScreenshot(files[j]) then [files[j]] else [])
  {
    assert files[..j + 1][..j] == files[..j];
  }

  lemma SuffixExamples()
    ensures EndsWith("2023-01-01_12.00.00.png", PNG_SUFFIX)
    ensures EndsWith(".png", PNG_SUFFIX)
    ensures !EndsWith("shot.PNG", PNG_SUFFIX)
    ensures !EndsWith("png", PNG_SUFFIX)
  {
  }
}
