/** Lookup of the archive credentials (`get_rda_credentials` in
    download_era5_rda.py): the RDA_EMAIL and RDA_KEY environment variables
    when both are set, otherwise the `email:` and `key:` lines of the `[RDA]`
    section of the user's configuration file. */
module RdaCredentials {
  import opened Text

  const SECTION: string := "[RDA]"
  const EMAIL_PREFIX: string := "email:"
  const KEY_PREFIX: string := "key:"

  /** An e-mail address and an API key, each possibly missing (Python None). */
  datatype Credentials = Credentials(email: Option<string>, key: Option<string>)

  /** Python truthiness of an optional string: present and not empty. */
  predicate Truthy(v: Option<string>) { v.Some? && v.value != "" }

  predicate Usable(c: Credentials) { Truthy(c.email) && Truthy(c.key) }

  /** The lines of the file as the loop sees them, each one stripped. */
  function Stripped(lines: seq<string>): (r: seq<string>)
    ensures |r| == |lines| && forall i :: 0 <= i < |lines| ==> r[i] == Strip(lines[i])
  {
    seq(|lines|, i requires 0 <= i < |lines| => Strip(lines[i]))
  }

  /** Index of the first (stripped) line that is `[RDA]`, if any. */
  function SectionStart(lines: seq<string>): (r: Option<nat>)
    ensures r.Some? ==> r.value < |lines| && lines[r.value] == SECTION
    ensures r.Some? ==> forall j :: 0 <= j < r.value ==> lines[j] != SECTION
    ensures r.None? ==> forall j :: 0 <= j < |lines| ==> lines[j] != SECTION
  {
    if lines == [] then None
    else
      match SectionStart(lines[..|lines| - 1])
      case Some(k) => Some(k)
      case None => if lines[|lines| - 1] == SECTION then Some(|lines| - 1) else None
  }

  /** A field prefix: a name followed by its only colon. */
  predicate IsFieldPrefix(prefix: string)
  {
    prefix != [] && prefix[|prefix| - 1] == ':' && ':' !in prefix[..|prefix| - 1]
  }

  lemma FieldPrefixes()
    ensures IsFieldPrefix(EMAIL_PREFIX) && IsFieldPrefix(KEY_PREFIX)
  {
    assert EMAIL_PREFIX[..5] == "email";
    assert KEY_PREFIX[..3] == "key";
  }

  /** `line.split(':', 1)[1].strip()` */
  function FieldValue(line: string): string
    requires ':' in line
  {
    Strip(AfterFirst(line, ':'))
  }

  /** The value of a field line is the stripped text after its prefix. */
  lemma FieldValueAfterPrefix(line: string, prefix: string)
    requires IsFieldPrefix(prefix) && StartsWith(line, prefix)
    ensures ':' in line && FieldValue(line) == Strip(line[|prefix|..])
  {
    AfterPrefix(line, prefix, ':');
  }

  /** The value given by the last of the (stripped) lines that starts with
      `prefix`, or `default` when there is none. */
  function LastField(lines: seq<string>, prefix: string, default: Option<string>): Option<string>
    requires IsFieldPrefix(prefix)
  {
    if lines == [] then default
    else
      var line := lines[|lines| - 1];
      if StartsWith(line, prefix) then
        FieldValueAfterPrefix(line, prefix);
        Some(FieldValue(line))
      else LastField(lines[..|lines| - 1], prefix, default)
  }

  /** What the configuration file contributes, given its stripped lines:
      nothing without an `[RDA]` line; otherwise the last `email:` and
      `key:` lines after the first `[RDA]` line, each falling back to the
      value it would replace. */
  function FromFile(lines: seq<string>, email0: Option<string>, key0: Option<string>): Credentials
  {
    FieldPrefixes();
    match SectionStart(lines)
    case None => Credentials(email0, key0)
    case Some(s) =>
      Credentials(LastField(lines[s + 1..], EMAIL_PREFIX, email0), LastField(lines[s + 1..], KEY_PREFIX, key0))
  }

  /** The whole lookup: the environment when both variables are non-empty,
      otherwise the file (if it exists) on top of the environment values. */
  function Lookup(envEmail: Option<string>, envKey: Option<string>, config: Option<seq<string>>): Credentials
  {
    if Truthy(envEmail) && Truthy(envKey) then Credentials(envEmail, envKey)
    else if config.None? then Credentials(envEmail, envKey)
    else FromFile(Stripped(config.value), envEmail, envKey)
  }

  /** The loop's variables after a prefix of the stripped lines. */
  datatype ScanState = ScanState(inSection: bool, email: Option<string>, key: Option<string>)

  function ScanOf(lines: seq<string>, email0: Option<string>, key0: Option<string>): ScanState
  {
    var c := FromFile(lines, email0, key0);
    ScanState(SectionStart(lines).Some?, c.email, c.key)
  }

  /** One iteration of the loop on a stripped line. */
  function ScanLine(st: ScanState, line: string): ScanState
  {
    FieldPrefixes();
    if line == SECTION then st.(inSection := true)
    else
      var st1 := if st.inSection && StartsWith(line, EMAIL_PREFIX) then st.(email := Some(FieldValue(line))) else st;
      if st.inSection && StartsWith(line, KEY_PREFIX) then st1.(key := Some(FieldValue(line))) else st1
  }

  /** Scanning one more line agrees with the declarative reading of the file. */
  lemma ScanNext(lines: seq<string>, line: string, email0: Option<string>, key0: Option<string>)
    ensures ScanOf(lines + [line], email0, key0) == ScanLine(ScanOf(lines, email0, key0), line)
  {
    FieldPrefixes();
    var all := lines + [line];
    assert all[..|all| - 1] == lines;
    match SectionStart(lines)
    case None =>
    case Some(s) =>
      assert all[s + 1..][..|all[s + 1..]| - 1] == lines[s + 1..];
      assert all[s + 1..][|all[s + 1..]| - 1] == line;
  }

  /** `get_rda_credentials`, with the environment and the file's lines
      (None when the file does not exist) given as inputs. */
  method GetRdaCredentials(envEmail: Option<string>, envKey: Option<string>, config: Option<seq<string>>)
    returns (c: Credentials)
    ensures c == Lookup(envEmail, envKey, config)
    ensures Truthy(envEmail) && Truthy(envKey) ==> c == Credentials(envEmail, envKey)
  {
    var email, key := envEmail, envKey;
    if Truthy(email) && Truthy(key) {
      return Credentials(email, key);
    }
    if config.None? {
      return Credentials(email, key);
    }
    FieldPrefixes();
    var lines := config.value;
    ghost var stripped := Stripped(lines);
    var inSection := false;
    var i := 0;
    while i < |lines|
      invariant 0 <= i <= |lines|
      invariant ScanState(inSection, email, key) == ScanOf(stripped[..i], envEmail, envKey)
    {
      var line := Strip(lines[i]);
      ScanNext(stripped[..i], line, envEmail, envKey);
      assert stripped[..i + 1] == stripped[..i] + [line];
      if line == SECTION {
        inSection := true;
        i := i + 1;
        continue;
      }
      if inSection && StartsWith(line, EMAIL_PREFIX) {
        email := Some(FieldValue(line));
      }
      if inSection && StartsWith(line, KEY_PREFIX) {
        key := Some(FieldValue(line));
      }
      i := i + 1;
    }
    assert stripped[..|lines|] == stripped;
    c := Credentials(email, key);
  }

  /** Lines before the first `[RDA]` line have no effect: the file reads as
      if it started at that line. */
  lemma {:induction false} LinesBeforeSectionIgnored(pre: seq<string>, post: seq<string>,
                                                     email0: Option<string>, key0: Option<string>)
    requires forall j :: 0 <= j < |pre| ==> pre[j] != SECTION
    ensures FromFile(pre + post, email0, key0) == FromFile(post, email0, key0)
  {
    SectionStartShift(pre, post);
    match SectionStart(post)
    case None =>
    case Some(s) =>
      assert (pre + post)[|pre| + s + 1..] == post[s + 1..];
  }

  lemma {:induction false} SectionStartShift(pre: seq<string>, post: seq<string>)
    requires forall j :: 0 <= j < |pre| ==> pre[j] != SECTION
    ensures SectionStart(pre + post) ==
      match SectionStart(post) case None => None case Some(s) => Some(|pre| + s)
    decreases |post|
  {
    if post == [] {
      assert pre + post == pre;
    } else {
      var all := pre + post;
      assert all[..|all| - 1] == pre + post[..|post| - 1];
      SectionStartShift(pre, post[..|post| - 1]);
    }
  }

  /** One field line inside the section sets its own field only. */
  lemma ScanFieldLine(st: ScanState, line: string)
    requires st.inSection
    ensures StartsWith(line, EMAIL_PREFIX) ==> ScanLine(st, line) == st.(email := Some(Strip(line[|EMAIL_PREFIX|..])))
    ensures StartsWith(line, KEY_PREFIX) ==> ScanLine(st, line) == st.(key := Some(Strip(line[|KEY_PREFIX|..])))
  {
    FieldPrefixes();
    if StartsWith(line, EMAIL_PREFIX) {
      FieldValueAfterPrefix(line, EMAIL_PREFIX);
      assert line[0] == 'e';
    }
    if StartsWith(line, KEY_PREFIX) {
      FieldValueAfterPrefix(line, KEY_PREFIX);
      assert line[0] == 'k';
    }
  }

  /** A later field line overrides every earlier one: appending an `email:`
      line to a file that has an `[RDA]` section sets the e-mail address to
      the text after that line's colon and leaves the key alone. */
  lemma LaterLineWins(lines: seq<string>, line: string, email0: Option<string>, key0: Option<string>)
    requires SectionStart(lines).Some?
    requires StartsWith(line, EMAIL_PREFIX)
    ensures FromFile(lines + [line], email0, key0).email == Some(Strip(line[|EMAIL_PREFIX|..]))
    ensures FromFile(lines + [line], email0, key0).key == FromFile(lines, email0, key0).key
  {
    ScanNext(lines, line, email0, key0);
    ScanFieldLine(ScanOf(lines, email0, key0), line);
  }

  /** The same for the key: appending a `key:` line to a file that has an
      `[RDA]` section sets the key to the text after that line's colon and
      leaves the e-mail address alone. */
  lemma LaterKeyLineWins(lines: seq<string>, line: string, email0: Option<string>, key0: Option<string>)
    requires SectionStart(lines).Some?
    requires StartsWith(line, KEY_PREFIX)
    ensures FromFile(lines + [line], email0, key0).key == Some(Strip(line[|KEY_PREFIX|..]))
    ensures FromFile(lines + [line], email0, key0).email == FromFile(lines, email0, key0).email
  {
    ScanNext(lines, line, email0, key0);
    ScanFieldLine(ScanOf(lines, email0, key0), line);
  }
}
