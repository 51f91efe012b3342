/** Names of recorded files. */
module FileNames {
  import opened Text

  /** A broken-down local time, to the second, as the file name shows it. */
  datatype Stamp = Stamp(year: nat, month: Two, day: Two, hour: Two, minute: Two, second: Two)

  type Two = n: nat | n < 100 witness 0

  function StampText(t: Stamp): (s: string)
    ensures forall c :: c in s ==> c == ' ' || '0' <= c <= '9'
  {
    FourWide(t.year) + LastTen(t)
  }

  function LastTen(t: Stamp): (s: string)
    ensures |s| == 10
    ensures forall c :: c in s ==> '0' <= c <= '9'
  {
    TwoDigits(t.month) + TwoDigits(t.day) + TwoDigits(t.hour) + TwoDigits(t.minute) + TwoDigits(t.second)
  }

  /** An unset format records as a program stream. */
  function Extension(fmt: string): (ext: string)
    ensures ext != ""
  {
    if fmt == "" then "ps" else fmt
  }

  /** The camera URL with every colon written as an underscore. */
  function Prefix(url: string): (s: string)
    ensures |s| == |url|
  {
    seq(|url|, i requires 0 <= i < |url| => if url[i] == ':' then '_' else url[i])
  }

  function FileName(dir: string, url: string, t: Stamp, fmt: string): (s: string)
    ensures s != ""
  {
    dir + "/" + (Prefix(url) + "_" + (StampText(t) + "." + Extension(fmt)))
  }

  lemma StampTextInjective(t: Stamp, t': Stamp)
    ensures StampText(t) == StampText(t') ==> t == t'
  {
    if StampText(t) == StampText(t') {
      SplitTail(FourWide(t.year), LastTen(t), FourWide(t'.year), LastTen(t'));
      FourWideInjective(t.year, t'.year);
      LastTenInjective(t, t');
    }
  }

  /** The time reads back from its text: the year in front, then month, day, hour, minute and second with
      two digits each. */
  lemma StampReads(t: Stamp)
    ensures var s := StampText(t);
            |s| >= 14 && (t.year < 10000 ==> |s| == 14) && (t.year >= 1000 ==> ' ' !in s)
    ensures var s, k := StampText(t), |StampText(t)| - 10;
            && Value(s[..k]) == t.year && Value(s[k..k + 2]) == t.month && Value(s[k + 2..k + 4]) == t.day
            && Value(s[k + 4..k + 6]) == t.hour && Value(s[k + 6..k + 8]) == t.minute && Value(s[k + 8..]) == t.second
  {
    FourWideReads(t.year);
    TwoDigitsRead(t.month);
    TwoDigitsRead(t.day);
    TwoDigitsRead(t.hour);
    TwoDigitsRead(t.minute);
    TwoDigitsRead(t.second);
    hide FourWide, TwoDigits, Value;
    Pieces(FourWide(t.year), TwoDigits(t.month), TwoDigits(t.day), TwoDigits(t.hour), TwoDigits(t.minute),
           TwoDigits(t.second));
  }

  lemma Pieces(y: string, a: string, b: string, c: string, d: string, e: string)
    requires |a| == |b| == |c| == |d| == |e| == 2
    ensures var s, k := y + (a + b + c + d + e), |y|;
            && s[..k] == y && s[k..k + 2] == a && s[k + 2..k + 4] == b && s[k + 4..k + 6] == c
            && s[k + 6..k + 8] == d && s[k + 8..] == e
  {
    var tail := a + b + c + d + e;
    assert tail[..2] == a && tail[2..4] == b && tail[4..6] == c && tail[6..8] == d && tail[8..] == e;
  }

  /** A name is the directory, a slash, the URL with every colon written as an underscore, an underscore, the
      time, a dot and the format, or "ps" without one. */
  lemma NameText(dir: string, url: string, t: Stamp, fmt: string)
    ensures |Prefix(url)| == |url|
    ensures forall i :: 0 <= i < |url| ==> Prefix(url)[i] == if url[i] == ':' then '_' else url[i]
    ensures FileName(dir, url, t, fmt)
            == dir + "/" + Prefix(url) + "_" + StampText(t) + "." + (if fmt == "" then "ps" else fmt)
  {
    assert forall i :: 0 <= i < |url| ==> Prefix(url)[i] == if url[i] == ':' then '_' else url[i];
    hide StampText, Prefix;
    Regroup(dir, Prefix(url), StampText(t), Extension(fmt));
  }

  lemma Regroup(a: string, b: string, c: string, d: string)
    ensures a + "/" + (b + "_" + (c + "." + d)) == a + "/" + b + "_" + c + "." + d
  {
  }

  lemma LastTenInjective(t: Stamp, t': Stamp)
    requires LastTen(t) == LastTen(t')
    ensures t == t'.(year := t.year)
  {
    var a, b := LastTen(t), LastTen(t');
    assert TwoDigits(t.month) == a[..2] == b[..2] == TwoDigits(t'.month);
    assert TwoDigits(t.day) == a[2..4] == b[2..4] == TwoDigits(t'.day);
    assert TwoDigits(t.hour) == a[4..6] == b[4..6] == TwoDigits(t'.hour);
    assert TwoDigits(t.minute) == a[6..8] == b[6..8] == TwoDigits(t'.minute);
    assert TwoDigits(t.second) == a[8..] == b[8..] == TwoDigits(t'.second);
    TwoDigitsInjective(t.month, t'.month);
    TwoDigitsInjective(t.day, t'.day);
    TwoDigitsInjective(t.hour, t'.hour);
    TwoDigitsInjective(t.minute, t'.minute);
    TwoDigitsInjective(t.second, t'.second);
  }

  /** Camera URLs and formats whose names can be taken apart again. */
  predicate Plain(url: string, fmt: string) {
    '/' !in url && '/' !in fmt && '_' !in fmt
  }

  /** Exactly when two recordings get one name: same directory, local second and extension, and
      camera URLs that differ at most in ':' against '_'. */
  lemma SameName(dir: string, url: string, t: Stamp, fmt: string,
                 dir': string, url': string, t': Stamp, fmt': string)
    requires Plain(url, fmt) && Plain(url', fmt')
    ensures FileName(dir, url, t, fmt) == FileName(dir', url', t', fmt')
            <==> dir == dir' && Prefix(url) == Prefix(url') && t == t' && Extension(fmt) == Extension(fmt')
  {
    if FileName(dir, url, t, fmt) == FileName(dir', url', t', fmt') {
      var tail, tail' := StampText(t) + "." + Extension(fmt), StampText(t') + "." + Extension(fmt');
      SplitAtLast(dir, Prefix(url) + "_" + tail, dir', Prefix(url') + "_" + tail', '/');
      SplitAtLast(Prefix(url), tail, Prefix(url'), tail', '_');
      SplitAtFirst(StampText(t), Extension(fmt), StampText(t'), Extension(fmt'), '.');
      StampTextInjective(t, t');
    }
  }

  lemma PrefixKeeps(url: string)
    requires ':' !in url
    ensures Prefix(url) == url
  {
    assert forall i :: 0 <= i < |url| ==> url[i] in url;
  }

  /** Without that, names of different recordings can meet: a camera URL with a slash, */
  lemma SlashInUrl(t: Stamp, fmt: string)
    ensures FileName("d", "a/b", t, fmt) == FileName("d/a", "b", t, fmt)
  {
    PrefixKeeps("a/b");
    PrefixKeeps("b");
    hide Prefix, StampText, Extension;
    SlashMoves("_" + (StampText(t) + "." + Extension(fmt)));
  }

  lemma SlashMoves(rest: string)
    ensures "d" + "/" + ("a/b" + rest) == "d/a" + "/" + ("b" + rest)
  {
  }

  lemma SlashesMove(s: string, s': string)
    ensures "d" + "/" + ("a" + "_" + (s + "." + ("p/b_" + s' + ".q")))
            == "d/a_" + s + ".p" + "/" + ("b" + "_" + (s' + "." + "q"))
  {
  }

  lemma UnderscoresMove(s: string, s': string)
    ensures "a" + "_" + (s + "." + ("p_" + s' + ".q")) == "a_" + s + ".p" + "_" + (s' + "." + "q")
  {
  }

  /** a format with a slash, */
  lemma SlashInFormat(t: Stamp, t': Stamp)
    ensures FileName("d", "a", t, "p/b_" + StampText(t') + ".q") == FileName("d/a_" + StampText(t) + ".p", "b", t', "q")
  {
    var fmt := "p/b_" + StampText(t') + ".q";
    PrefixKeeps("a");
    PrefixKeeps("b");
    assert Extension(fmt) == fmt && Extension("q") == "q";
    hide Prefix, StampText, Extension;
    SlashesMove(StampText(t), StampText(t'));
  }

  /** and a format with an underscore. */
  lemma UnderscoreInFormat(t: Stamp, t': Stamp)
    ensures FileName("d", "a", t, "p_" + StampText(t') + ".q") == FileName("d", "a_" + StampText(t) + ".p", t', "q")
  {
    var fmt, url := "p_" + StampText(t') + ".q", "a_" + StampText(t) + ".p";
    PrefixKeeps(url);
    PrefixKeeps("a");
    assert Extension(fmt) == fmt && Extension("q") == "q";
    hide Prefix, StampText, Extension;
    UnderscoresMove(StampText(t), StampText(t'));
  }

  /** Among URLs without an underscore the colon replacement loses nothing. */
  lemma PrefixInjective(url: string, url': string)
    requires '_' !in url && '_' !in url'
    ensures Prefix(url) == Prefix(url') <==> url == url'
  {
    if Prefix(url) == Prefix(url') {
      forall i | 0 <= i < |url| ensures url[i] == url'[i] {
        assert Prefix(url)[i] == Prefix(url')[i];
        assert url[i] in url && url'[i] in url';
      }
    }
  }

  /** With an underscore it does: these two cameras share every file name. */
  lemma PrefixCollides()
    ensures Prefix("cam:1") == Prefix("cam_1") && "cam:1" != "cam_1"
  {
    assert Prefix("cam:1")[3] == '_';
  }
}
