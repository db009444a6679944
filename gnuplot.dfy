/** The parts of the gnuplot wrapper that are logic rather than I/O: the
 *  string tokenizer, the choice of plotting style, the plot counter that
 *  commands advance, and the count of temporary files shared by all
 *  sessions. Writing to the gnuplot pipe, creating and removing files and
 *  asking the file system about access rights are not modelled: their
 *  outcomes are parameters. */
module GnuplotSessions {
  import opened Wrappers

  // ---------------------------------------------------------------------
  // Searching strings

  /** Word w occurs in s at position k. */
  predicate OccursAt(s: string, w: string, k: nat)
  {
    k + |w| <= |s| && s[k..k + |w|] == w
  }

  /** The first position at or after from where w occurs in s, or None when
   *  it occurs nowhere there (the search of std::string::find). */
  function Find(s: string, w: string, from: nat): (r: Option<nat>)
    ensures r.Some? ==> from <= r.value && OccursAt(s, w, r.value)
    ensures r.Some? ==> forall k :: from <= k < r.value ==> !OccursAt(s, w, k)
    ensures r.None? ==> forall k :: from <= k ==> !OccursAt(s, w, k)
    decreases |s| - from
  {
    if from + |w| > |s| then None
    else if OccursAt(s, w, from) then Some(from)
    else Find(s, w, from + 1)
  }

  /** w occurs somewhere in s. */
  predicate Contains(s: string, w: string)
  {
    Find(s, w, 0).Some?
  }

  /** A word occurring at position k is found. */
  lemma OccursContains(s: string, w: string, k: nat)
    requires OccursAt(s, w, k)
    ensures Contains(s, w)
  {
  }

  /** Every word occurs in itself. */
  lemma ContainsSelf(w: string)
    ensures Contains(w, w)
  {
    assert w[0..|w|] == w;
    OccursContains(w, w, 0);
  }

  /** A word occurring inside a word that occurs in s occurs in s too. */
  lemma {:induction false} ContainsInner(s: string, w: string, v: string, d: nat)
    requires Contains(s, w) && OccursAt(w, v, d)
    ensures Contains(s, v)
  {
    var k := Find(s, w, 0).value;
    assert s[k + d..k + d + |v|] == w[d..d + |v|];
    OccursContains(s, v, k + d);
  }

  // ---------------------------------------------------------------------
  // The tokenizer

  /** The delimiters the tokenizer uses by default: space, tab and newline. */
  const DefaultDelimiters: string := " \t\n"

  /** The first position at or after i whose character is not a delimiter,
   *  or |s| when there is none (std::string::find_first_not_of). */
  function FirstNotOf(s: string, delims: string, i: nat): (r: nat)
    requires i <= |s|
    ensures i <= r <= |s|
    ensures forall k :: i <= k < r ==> s[k] in delims
    ensures r < |s| ==> s[r] !in delims
    decreases |s| - i
  {
    if i == |s| || s[i] !in delims then i else FirstNotOf(s, delims, i + 1)
  }

  /** The first position at or after i whose character is a delimiter, or
   *  |s| when there is none (std::string::find_first_of). */
  function FirstOf(s: string, delims: string, i: nat): (r: nat)
    requires i <= |s|
    ensures i <= r <= |s|
    ensures forall k :: i <= k < r ==> s[k] !in delims
    ensures r < |s| ==> s[r] in delims
    decreases |s| - i
  {
    if i == |s| || s[i] in delims then i else FirstOf(s, delims, i + 1)
  }

  /** The pieces of s between its delimiters, empty pieces included: one
   *  more piece than s has delimiters. */
  function Split(s: string, delims: string): (r: seq<string>)
    ensures |r| >= 1
    decreases |s|
  {
    var k := FirstOf(s, delims, 0);
    if k == |s| then [s] else [s[..k]] + Split(s[k + 1..], delims)
  }

  /** The non-empty strings of ps, in order. */
  function NonEmpty(ps: seq<string>): seq<string>
  {
    if ps == [] then []
    else if ps[0] == [] then NonEmpty(ps[1..])
    else [ps[0]] + NonEmpty(ps[1..])
  }

  /** The tokens of s: the non-empty pieces between delimiters. */
  function Tokens(s: string, delims: string): seq<string>
  {
    NonEmpty(Split(s, delims))
  }

  /** s with every delimiter removed. */
  function Strip(s: string, delims: string): string
  {
    if s == [] then []
    else if s[0] in delims then Strip(s[1..], delims)
    else [s[0]] + Strip(s[1..], delims)
  }

  /** The concatenation of a sequence of strings. */
  function Concat(ts: seq<string>): string
  {
    if ts == [] then [] else ts[0] + Concat(ts[1..])
  }

  /** Strip distributes over concatenation. */
  lemma {:induction false} StripAppend(a: string, b: string, delims: string)
    ensures Strip(a + b, delims) == Strip(a, delims) + Strip(b, delims)
    decreases |a|
  {
    if a != [] {
      assert (a + b)[0] == a[0];
      assert (a + b)[1..] == a[1..] + b;
      StripAppend(a[1..], b, delims);
      if a[0] !in delims {
        assert [a[0]] + (Strip(a[1..], delims) + Strip(b, delims))
            == ([a[0]] + Strip(a[1..], delims)) + Strip(b, delims);
      }
    } else {
      assert a + b == b;
    }
  }

  /** A string without delimiters strips to itself. */
  lemma {:induction false} StripPlain(t: string, delims: string)
    requires forall k :: 0 <= k < |t| ==> t[k] !in delims
    ensures Strip(t, delims) == t
    decreases |t|
  {
    if t != [] {
      StripPlain(t[1..], delims);
    }
  }

  /** No character of p is a delimiter. */
  predicate Plain(p: string, delims: string)
  {
    forall k :: 0 <= k < |p| ==> p[k] !in delims
  }

  /** No piece of the split holds a delimiter. */
  lemma {:induction false} SplitPlain(s: string, delims: string)
    ensures forall p :: p in Split(s, delims) ==> Plain(p, delims)
    decreases |s|
  {
    var k := FirstOf(s, delims, 0);
    if k < |s| {
      var rest := s[k + 1..];
      SplitPlain(rest, delims);
      assert Split(s, delims) == [s[..k]] + Split(rest, delims);
    }
  }

  /** Together the pieces of the split hold exactly the characters of s
   *  that are not delimiters. */
  lemma {:induction false} SplitPieces(s: string, delims: string)
    ensures Concat(Split(s, delims)) == Strip(s, delims)
    decreases |s|
  {
    var k := FirstOf(s, delims, 0);
    if k == |s| {
      StripPlain(s, delims);
      assert Concat([s]) == s + Concat([]);
    } else {
      var rest := s[k + 1..];
      SplitPieces(rest, delims);
      StripPlain(s[..k], delims);
      assert s == s[..k] + ([s[k]] + rest);
      StripAppend(s[..k], [s[k]] + rest, delims);
      assert Strip([s[k]] + rest, delims) == Strip(rest, delims) by {
        assert ([s[k]] + rest)[1..] == rest;
      }
      var ps := [s[..k]] + Split(rest, delims);
      assert ps[1..] == Split(rest, delims);
    }
  }

  /** Dropping empty strings keeps the others in order and keeps the
   *  concatenation. */
  lemma {:induction false} NonEmptyKeeps(ps: seq<string>)
    ensures forall t :: t in NonEmpty(ps) ==> t != [] && t in ps
    ensures Concat(NonEmpty(ps)) == Concat(ps)
    decreases |ps|
  {
    if ps != [] {
      NonEmptyKeeps(ps[1..]);
      if ps[0] != [] {
        var ts := [ps[0]] + NonEmpty(ps[1..]);
        assert ts[1..] == NonEmpty(ps[1..]);
      }
    }
  }

  /** The tokens are non-empty, hold no delimiter, and read in order they
   *  spell s with its delimiters removed. */
  lemma TokensOfString(s: string, delims: string)
    ensures forall t, k :: t in Tokens(s, delims) && 0 <= k < |t| ==> t[k] !in delims
    ensures forall t :: t in Tokens(s, delims) ==> |t| > 0
    ensures Concat(Tokens(s, delims)) == Strip(s, delims)
  {
    SplitPlain(s, delims);
    SplitPieces(s, delims);
    NonEmptyKeeps(Split(s, delims));
  }

  /** The empty string has no tokens. */
  lemma NoTokens(delims: string)
    ensures Tokens([], delims) == []
  {
    var e: string := [];
    assert Split(e, delims) == [e];
    assert [e][1..] == [];
    assert NonEmpty([e]) == NonEmpty([]);
  }

  /** Delimiters ahead of the first token do not change the tokens. */
  lemma {:induction false} SkipDelimiters(s: string, delims: string, i: nat, k: nat)
    requires i <= k <= |s|
    requires forall m :: i <= m < k ==> s[m] in delims
    ensures Tokens(s[i..], delims) == Tokens(s[k..], delims)
    decreases k - i
  {
    if i < k {
      var t := s[i..];
      assert FirstOf(t, delims, 0) == 0;
      assert t[1..] == s[i + 1..];
      SkipDelimiters(s, delims, i + 1, k);
    }
  }

  /** A token running from a to b, ended by a delimiter or by the end of s,
   *  is the first token of s[a..]. */
  lemma TokenAt(s: string, delims: string, a: nat, b: nat)
    requires a < b <= |s|
    requires forall m :: a <= m < b ==> s[m] !in delims
    requires b < |s| ==> s[b] in delims
    ensures b == |s| ==> Tokens(s[a..], delims) == [s[a..b]]
    ensures b < |s| ==> Tokens(s[a..], delims) == [s[a..b]] + Tokens(s[b + 1..], delims)
  {
    var t := s[a..];
    assert FirstOf(t, delims, 0) == b - a;
    if b < |s| {
      assert t[..b - a] == s[a..b];
      assert t[b - a + 1..] == s[b + 1..];
      var ps := [s[a..b]] + Split(s[b + 1..], delims);
      assert ps[1..] == Split(s[b + 1..], delims);
    } else {
      assert t == s[a..b];
      var ts: seq<string> := [t];
      assert Split(t, delims) == ts;
      assert ts[1..] == [];
      assert NonEmpty(ts) == [t] + NonEmpty([]);
    }
  }

  /** The tokenizer: appends to container the tokens of text, skipping runs of
   *  delimiters. */
  method Stringtok(container: seq<string>, text: string, delims: string) returns (out: seq<string>)
    ensures out == container + Tokens(text, delims)
  {
    out := container;
    var len := |text|;
    var i := 0;
    while i < len
      invariant 0 <= i <= len
      invariant out + Tokens(text[i..], delims) == container + Tokens(text, delims)
      decreases len - i
    {
      var a := FirstNotOf(text, delims, i);
      SkipDelimiters(text, delims, i, a);
      if a == len {
        assert text[a..] == [];
        NoTokens(delims);
        return;
      }
      var b := FirstOf(text, delims, a);
      TokenAt(text, delims, a, b);
      var token := text[a..b];
      if b == len {
        assert Tokens(text[i..], delims) == [token];
        out := out + [token];
        return;
      }
      ghost var later := Tokens(text[b + 1..], delims);
      assert Tokens(text[i..], delims) == [token] + later;
      assert out + ([token] + later) == (out + [token]) + later;
      out := out + [token];
      i := b + 1;
    }
    assert text[i..] == [];
    NoTokens(delims);
  }

  // ---------------------------------------------------------------------
  // Plotting styles

  /** The plotting styles the wrapper recognises. */
  const KnownStyles: seq<string> := [
    "lines", "points", "linespoints", "impulses", "dots", "steps", "fsteps",
    "histeps", "labels", "boxes", "errorbars", "xerrorbars", "yerrorbars",
    "xyerrorbars", "boxerrorbars", "errorlines", "xerrorlines", "yerrorlines",
    "xyerrorlines", "boxxyerrorbars", "histograms", "filledcurves",
    "financebars", "candlesticks", "vectors", "image", "rgbimage", "pm3d"]

  /** Some style of styles occurs in s. */
  predicate FoundAny(s: string, styles: seq<string>)
  {
    exists i :: 0 <= i < |styles| && Contains(s, styles[i])
  }

  /** The style a session keeps when asked for stylestr: stylestr itself
   *  when it names a known style anywhere in it, otherwise "points". */
  function StyleFor(stylestr: string): (r: string)
  {
    if FoundAny(stylestr, KnownStyles) then stylestr else "points"
  }

  /** The kept style always names a known style, it is the request or
   *  "points", and asking again for the kept style keeps it. */
  lemma StyleKept(stylestr: string)
    ensures FoundAny(StyleFor(stylestr), KnownStyles)
    ensures StyleFor(stylestr) == stylestr || StyleFor(stylestr) == "points"
    ensures StyleFor(stylestr) == stylestr <==> FoundAny(stylestr, KnownStyles) || stylestr == "points"
    ensures StyleFor(StyleFor(stylestr)) == StyleFor(stylestr)
  {
    ContainsSelf("points");
    assert KnownStyles[1] == "points";
  }

  // ---------------------------------------------------------------------
  // Commands and the plot counter

  /** "replot" and "splot" both contain "plot": every plotting command,
   *  whichever of the three it is, contains "plot". */
  lemma PlotWords(s: string)
    ensures Contains(s, "replot") ==> Contains(s, "plot")
    ensures Contains(s, "splot") ==> Contains(s, "plot")
  {
    if Contains(s, "replot") {
      assert OccursAt("replot", "plot", 2) by {
        assert "replot"[2..6] == "plot";
      }
      ContainsInner(s, "replot", "plot", 2);
    }
    if Contains(s, "splot") {
      assert OccursAt("splot", "plot", 1) by {
        assert "splot"[1..5] == "plot";
      }
      ContainsInner(s, "splot", "plot", 1);
    }
  }

  /** The largest number of temporary files on Unix-like systems (27 on
   *  Windows). */
  const MaxTmpFiles: int := 64

  /** Failures the wrapper reports by throwing. */
  datatype GnuplotError =
    | TooManyTmpFiles
    | CannotCreateTmpFile(name: string)
    | BadAccessMode(mode: int)
    | NoDisplay
    | NoGnuplot
    | NoConnection

  /** Whether a file is accessible in the given mode; the answer of the file
   *  system is the parameter accessible. Modes outside 0..7 are refused. */
  function FileExists(mode: int, accessible: bool): (r: Result<bool, GnuplotError>)
    ensures r.Err? <==> mode < 0 || mode > 7
    ensures r.Err? ==> r.error == BadAccessMode(mode)
    ensures r.Ok? ==> r.value == accessible
  {
    if mode < 0 || mode > 7 then Err(BadAccessMode(mode)) else Ok(accessible)
  }

  /** The number of temporary files open across all sessions. */
  class TmpFileCounter {
    var num: int

    constructor()
      ensures num == 0
    {
      num := 0;
    }
  }

  /** A gnuplot session: whether its pipe is open, how many plots it shows,
   *  whether the last plot was two-dimensional, its plotting style, and
   *  the temporary files it owns. */
  class Session {
    var valid: bool
    var nplots: int
    var twoDim: bool
    var pstyle: string
    var tmpfileList: seq<string>
    const tmpfiles: TmpFileCounter

    /** A session whose pipe opened, with the style it was asked for: the
     *  successful end of the initialisation. The failing ends are Open's
     *  errors. */
    constructor(tmpfiles: TmpFileCounter, style: string)
      ensures this.tmpfiles == tmpfiles && valid
      ensures nplots == 0 && !twoDim && tmpfileList == []
      ensures pstyle == StyleFor(style)
    {
      this.tmpfiles := tmpfiles;
      valid := true;
      nplots := 0;
      twoDim := false;
      pstyle := StyleFor(style);
      tmpfileList := [];
    }

    /** Sends a command. An invalid session ignores it; otherwise a command
     *  containing "replot" adds a plot, one containing "splot" adds a
     *  three-dimensional plot, one containing "plot" adds a two-dimensional
     *  plot, tested in that order; so every command containing "plot"
     *  adds exactly one plot. */
    method Cmd(cmdstr: string)
      modifies this`nplots, this`twoDim
      ensures !valid ==> nplots == old(nplots) && twoDim == old(twoDim)
      ensures valid && Contains(cmdstr, "replot") ==> nplots == old(nplots) + 1 && twoDim == old(twoDim)
      ensures valid && !Contains(cmdstr, "replot") && Contains(cmdstr, "splot") ==>
        nplots == old(nplots) + 1 && !twoDim
      ensures valid && !Contains(cmdstr, "replot") && !Contains(cmdstr, "splot") && Contains(cmdstr, "plot") ==>
        nplots == old(nplots) + 1 && twoDim
      ensures nplots == old(nplots) + (if valid && Contains(cmdstr, "plot") then 1 else 0)
      ensures !Contains(cmdstr, "plot") ==> twoDim == old(twoDim)
    {
      if !valid {
        return;
      }
      PlotWords(cmdstr);
      if Find(cmdstr, "replot", 0).Some? {
        nplots := nplots + 1;
      } else if Find(cmdstr, "splot", 0).Some? {
        twoDim := false;
        nplots := nplots + 1;
      } else if Find(cmdstr, "plot", 0).Some? {
        twoDim := true;
        nplots := nplots + 1;
      }
    }

    /** Changes the plotting style. */
    method SetStyle(stylestr: string)
      modifies this`pstyle
      ensures pstyle == StyleFor(stylestr)
    {
      if !FoundAny(stylestr, KnownStyles) {
        pstyle := "points";
      } else {
        pstyle := stylestr;
      }
    }

    /** Clears the plots: the session's temporary files are given up (the
     *  shared count drops by their number) and no plot is shown. The
     *  number of files owned by other sessions stays the same. */
    method ResetPlot()
      modifies this`nplots, this`tmpfileList, tmpfiles`num
      ensures nplots == 0 && tmpfileList == []
      ensures tmpfiles.num == old(tmpfiles.num) - |old(tmpfileList)|
      ensures tmpfiles.num - |tmpfileList| == old(tmpfiles.num) - old(|tmpfileList|)
    {
      if |tmpfileList| > 0 {
        tmpfiles.num := tmpfiles.num - |tmpfileList|;
        tmpfileList := [];
      }
      nplots := 0;
    }

    /** Opens a temporary file called name; created says whether the file
     *  system made it. At one below the limit nothing is opened. The number
     *  of files owned by other sessions stays the same, and a count below
     *  the limit stays below it. */
    method CreateTmpfile(name: string, created: bool) returns (r: Result<string, GnuplotError>)
      modifies this`tmpfileList, tmpfiles`num
      ensures old(tmpfiles.num) == MaxTmpFiles - 1 ==> r == Err(TooManyTmpFiles)
      ensures old(tmpfiles.num) != MaxTmpFiles - 1 && !created ==> r == Err(CannotCreateTmpFile(name))
      ensures r.Err? ==> tmpfileList == old(tmpfileList) && tmpfiles.num == old(tmpfiles.num)
      ensures old(tmpfiles.num) != MaxTmpFiles - 1 && created ==>
        r == Ok(name) && tmpfileList == old(tmpfileList) + [name] && tmpfiles.num == old(tmpfiles.num) + 1
      ensures tmpfiles.num - |tmpfileList| == old(tmpfiles.num) - old(|tmpfileList|)
      ensures old(tmpfiles.num) < MaxTmpFiles ==> tmpfiles.num < MaxTmpFiles
    {
      if tmpfiles.num == MaxTmpFiles - 1 {
        return Err(TooManyTmpFiles);
      }
      if !created {
        return Err(CannotCreateTmpFile(name));
      }
      tmpfileList := tmpfileList + [name];
      tmpfiles.num := tmpfiles.num + 1;
      r := Ok(name);
    }
  }

  /** Opens a session with the given style. The environment's answers are
   *  parameters: whether a display is set, whether the gnuplot program was
   *  found, and whether the pipe to it opened. Each missing one is an error,
   *  checked in that order; otherwise the session is valid, empty and has
   *  the requested style. */
  method Open(tmpfiles: TmpFileCounter, display: bool, found: bool, piped: bool, style: string)
    returns (r: Result<Session, GnuplotError>)
    ensures r.Err? <==> !display || !found || !piped
    ensures !display ==> r == Err(NoDisplay)
    ensures display && !found ==> r == Err(NoGnuplot)
    ensures display && found && !piped ==> r == Err(NoConnection)
    ensures r.Ok? ==> fresh(r.value) && r.value.valid && r.value.tmpfiles == tmpfiles
    ensures r.Ok? ==> r.value.nplots == 0 && !r.value.twoDim && r.value.tmpfileList == []
    ensures r.Ok? ==> r.value.pstyle == StyleFor(style)
  {
    if !display {
      return Err(NoDisplay);
    }
    if !found {
      return Err(NoGnuplot);
    }
    if !piped {
      return Err(NoConnection);
    }
    var session := new Session(tmpfiles, style);
    r := Ok(session);
  }
}
