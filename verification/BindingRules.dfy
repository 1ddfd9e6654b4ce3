/** Which configurations and identities are accepted, and what binding decides, in terms of the files alone. */
module BindingRules {
  import opened Wrappers
  import opened Text
  import opened LocalBinding

  // ---- Validators ----

  predicate Hex(s: string)
  {
    forall i :: 0 <= i < |s| ==> s[i] in "0123456789abcdefABCDEF"
  }

  /** Five groups of hexadecimal digits, 8-4-4-4-12. */
  predicate IsUuid(s: string)
  {
    var groups := Split(s, '-');
    && |groups| == 5
    && |groups[0]| == 8 && |groups[1]| == 4 && |groups[2]| == 4 && |groups[3]| == 4 && |groups[4]| == 12
    && Hex(groups[0]) && Hex(groups[1]) && Hex(groups[2]) && Hex(groups[3]) && Hex(groups[4])
  }

  lemma HexIsHex(c: char)
    ensures HexDigit(c) <==> c in "0123456789abcdefABCDEF"
  {
  }

  lemma HexPart(s: string, from: nat, to: nat)
    requires from <= to <= |s|
    ensures Hex(s[from..to]) <==> forall i :: from <= i < to ==> HexDigit(s[i])
    ensures Hex(s[from..to]) ==> '-' !in s[from..to]
  {
    forall c ensures HexDigit(c) <==> c in "0123456789abcdefABCDEF" {
      HexIsHex(c);
    }
    hide HexDigit;
    forall i | from <= i < to ensures s[i] == s[from..to][i - from] {
    }
  }

  /** The test by positions is the test by groups. */
  lemma UuidMeans(s: string)
    ensures ValidUuid(s) <==> IsUuid(s)
  {
    hide Split, Hex, HexDigit;
    if ValidUuid(s) {
      UuidHasGroups(s);
    }
    if IsUuid(s) {
      GroupsMakeUuid(s);
    }
  }

  lemma UuidHasGroups(s: string)
    requires ValidUuid(s)
    ensures IsUuid(s)
  {
    hide Split, Hex, HexDigit;
    HexPart(s, 0, 8);
    HexPart(s, 9, 13);
    HexPart(s, 14, 18);
    HexPart(s, 19, 23);
    HexPart(s, 24, 36);
    assert s == s[0..8] + ['-'] + s[9..36];
    SplitGroup(s[0..8], s[9..36]);
    assert s[9..36] == s[9..13] + ['-'] + s[14..36];
    SplitGroup(s[9..13], s[14..36]);
    assert s[14..36] == s[14..18] + ['-'] + s[19..36];
    SplitGroup(s[14..18], s[19..36]);
    assert s[19..36] == s[19..23] + ['-'] + s[24..36];
    SplitGroup(s[19..23], s[24..36]);
    SplitWhole(s[24..36], '-');
    assert Split(s, '-') == [s[0..8], s[9..13], s[14..18], s[19..23], s[24..36]];
  }

  lemma SplitGroup(group: string, rest: string)
    requires '-' !in group
    ensures Split(group + ['-'] + rest, '-') == [group] + Split(rest, '-')
  {
    SplitWhole(group, '-');
    SplitConcat(group, rest, '-');
  }

  lemma GroupsMakeUuid(s: string)
    requires IsUuid(s)
    ensures ValidUuid(s)
  {
    hide Split, Hex, HexDigit;
    var g := Split(s, '-');
    JoinSplit(s, '-');
    JoinFive(g);
    assert s[0..8] == g[0] && s[9..13] == g[1] && s[14..18] == g[2] && s[19..23] == g[3] && s[24..36] == g[4];
    HexPart(s, 0, 8);
    HexPart(s, 9, 13);
    HexPart(s, 14, 18);
    HexPart(s, 19, 23);
    HexPart(s, 24, 36);
  }

  lemma JoinFive(g: seq<string>)
    requires |g| == 5
    ensures Join(g, '-') == g[0] + ['-'] + (g[1] + ['-'] + (g[2] + ['-'] + (g[3] + ['-'] + g[4])))
  {
    assert g[1..][1..] == g[2..] && g[2..][1..] == g[3..] && g[3..][1..] == g[4..];
    assert Join(g[4..], '-') == g[4];
    assert Join(g[3..], '-') == g[3] + ['-'] + Join(g[4..], '-');
    assert Join(g[2..], '-') == g[2] + ['-'] + Join(g[3..], '-');
    assert Join(g[1..], '-') == g[1] + ['-'] + Join(g[2..], '-');
  }

  ghost predicate IsFingerprint(s: string)
  {
    exists digits :: |digits| == 64 && Hex(digits) && s == "sha256:" + digits
  }

  lemma FingerprintMeans(s: string)
    ensures ValidFingerprint(s) <==> IsFingerprint(s)
  {
    hide Hex, HexDigit;
    if ValidFingerprint(s) {
      HexPart(s, 7, 71);
      assert s == "sha256:" + s[7..71];
    }
    if IsFingerprint(s) {
      var digits :| |digits| == 64 && Hex(digits) && s == "sha256:" + digits;
      assert s[7..71] == digits;
      HexPart(s, 7, 71);
    }
  }

  // ---- Configurations ----

  ghost predicate Filled(c: Config)
  {
    && IsUuid(c.workspace) && IsUuid(c.repository) && IsUuid(c.project) && IsFingerprint(c.fingerprint)
    && c.configuredAt.Some? && c.configuredAt.value != ZERO_TIME
  }

  predicate Unfilled(c: Config)
  {
    && c.configuredAt == None
    && TrimSpace(c.workspace) == "" && TrimSpace(c.repository) == "" && TrimSpace(c.project) == "" && TrimSpace(c.fingerprint) == ""
  }

  predicate Lacking(c: Config)
  {
    || c.configuredAt in {None, Some(ZERO_TIME)}
    || TrimSpace(c.workspace) == "" || TrimSpace(c.repository) == "" || TrimSpace(c.project) == "" || TrimSpace(c.fingerprint) == ""
  }

  lemma GraphicIsNotBlank(s: string)
    requires IsUuid(s) || IsFingerprint(s)
    ensures TrimSpace(s) != ""
  {
    var first := s[0];
    if IsUuid(s) {
      UuidMeans(s);
      assert HexDigit(first);
    } else {
      FingerprintMeans(s);
      assert first == 's';
    }
    assert !IsSpace(first);
    assert TrimLeft(s) == s;
    FirstStays(s);
  }

  lemma {:induction false} FirstStays(s: string)
    requires s != "" && !IsSpace(s[0])
    ensures TrimRight(s) != ""
    decreases |s|
  {
    if IsSpace(s[|s| - 1]) {
      FirstStays(s[..|s| - 1]);
    }
  }

  /** A configuration of version 2 is complete, or holds the server only, or is refused: half-filled ones,
      then bad identifiers, then bad fingerprints. */
  lemma CompleteExactly(c: Config)
    ensures CompleteV2(c) == Ok(true) <==> Filled(c)
    ensures CompleteV2(c) == Ok(false) <==> Unfilled(c)
    ensures CompleteV2(c) == Err(Partial) <==> !Unfilled(c) && Lacking(c)
    ensures CompleteV2(c) == Err(InvalidFingerprint) ==>
      IsUuid(c.workspace) && IsUuid(c.repository) && IsUuid(c.project) && !IsFingerprint(c.fingerprint)
    ensures CompleteV2(c) == Err(InvalidId) ==> !(IsUuid(c.workspace) && IsUuid(c.repository) && IsUuid(c.project))
    ensures CompleteV2(c).Err? ==> CompleteV2(c).error in {Partial, InvalidId, InvalidFingerprint}
  {
    UuidMeans(c.workspace);
    UuidMeans(c.repository);
    UuidMeans(c.project);
    FingerprintMeans(c.fingerprint);
    if Filled(c) {
      GraphicIsNotBlank(c.workspace);
      GraphicIsNotBlank(c.repository);
      GraphicIsNotBlank(c.project);
      GraphicIsNotBlank(c.fingerprint);
    }
    hide ValidUuid, ValidFingerprint, IsUuid, IsFingerprint, TrimSpace;
  }

  /** A binding can be used if and only if it names a server and is either a bare version 1 binding or a
      complete version 2 one for the remote that the checkout has now. */
  ghost predicate Usable(c: Config, remote: Option<string>)
  {
    && c.server.Some?
    && (|| (c.schema == 1 && IsUuid(c.project) && c.workspace == "" && c.repository == "" && c.fingerprint == "" && c.configuredAt == None)
        || (c.schema == 2 && Filled(c) && remote == Some(c.fingerprint)))
  }

  lemma LoadExactly(file: File<Config>, remote: Option<string>)
    ensures LoadServer(file, remote).Ok? <==> file.Present? && Usable(file.value, remote)
    ensures LoadServer(file, remote).Ok? ==> Some(LoadServer(file, remote).value) == file.value.server
    ensures file.Present? && file.value.server.Some? && file.value.schema == 2 && Filled(file.value) ==>
      && (remote == None ==> LoadServer(file, remote) == Err(NoRemote))
      && (remote.Some? && remote.value != file.value.fingerprint ==> LoadServer(file, remote) == Err(RemoteChanged))
  {
    if file.Present? {
      UuidMeans(file.value.project);
      CompleteExactly(file.value);
    }
    hide CompleteV2, ValidUuid, IsUuid, Filled, Unfilled;
  }

  // ---- Identities ----

  ghost predicate Readable(file: File<Identity>)
  {
    file.Present? ==>
      && IsUuid(file.value.key) && TrimSpace(file.value.name) != ""
      && (file.value.schema == 1 || (file.value.schema == 2 && file.value.server.Some?))
  }

  /** Whether the stored key stays in use: a version 2 identity for this very server, or a version 1
      identity, which names none; never when the key is to be rotated. */
  predicate KeepsKey(file: File<Identity>, server: Url, rotate: bool)
  {
    !rotate && file.Present? && (file.value.schema == 1 || file.value.server == Some(server))
  }

  function NameOf(file: File<Identity>, host: string): string
  {
    match file
    case Present(identity) => identity.name
    case _ => if TrimSpace(host) == "" then "local-machine" else host
  }

  /** Ensuring an identity fails on unreadable files only, and names the server asked for. The key changes
      exactly when it must, and a name is trimmed when it comes with a new key. */
  lemma EnsureExactly(file: File<Identity>, server: Url, rotate: bool, host: string, newKey: string)
    ensures var r := EnsureIdentity(file, server, rotate, host, newKey);
      && (r.Ok? <==> !file.Garbled? && Readable(file))
      && (r.Ok? ==>
            && r.value.schema == 2 && r.value.server == Some(server)
            && r.value.key == (if KeepsKey(file, server, rotate) then file.value.key else newKey)
            && r.value.name == (if KeepsKey(file, server, rotate) then file.value.name else TrimSpace(NameOf(file, host))))
  {
    if file.Present? {
      UuidMeans(file.value.key);
    }
    hide ValidUuid, IsUuid, TrimSpace;
  }

  // ---- Binding ----

  /** Whether a configuration binds to just this: the server, the three identifiers as they were given, and
      the fingerprint of the remote. */
  predicate BindsTo(c: Config, options: Options, remote: Option<string>)
  {
    && c.server == options.server && Some(c.fingerprint) == remote
    && c.workspace == options.workspace && c.repository == options.repository && c.project == options.project
  }

  ghost predicate WellAsked(options: Options, remote: Option<string>)
  {
    && options.server.Some? && remote.Some?
    && IsUuid(TrimSpace(options.workspace)) && IsUuid(TrimSpace(options.repository)) && IsUuid(TrimSpace(options.project))
  }

  /** What may be overwritten: with Rebind any readable configuration; without it only one for the same
      server that is not bound elsewhere. */
  ghost predicate MayBind(c: Config, options: Options, remote: Option<string>)
  {
    && c.server.Some?
    && (options.rebind || c.server == options.server)
    && (|| (&& c.schema == 1 && c.workspace == "" && c.repository == "" && c.fingerprint == "" && c.configuredAt == None
            && (options.rebind || c.project in {"", options.project}))
        || (&& c.schema == 2
            && (Unfilled(c) || (Filled(c) && (options.rebind || BindsTo(c, options, remote))))))
  }

  /** What the plan says about the files: keep a configuration that says the same, or replace it. */
  ghost predicate PlansFor(c: Config, options: Options, remote: Option<string>, now: Time, plan: Plan)
  {
    match plan
    case Keep(server) => Some(server) == options.server && c.schema == 2 && Filled(c) && BindsTo(c, options, remote)
    case Replace(target, server, rotate) =>
      && Some(server) == options.server
      && !(c.schema == 2 && Filled(c) && BindsTo(c, options, remote))
      && (rotate <==> c.server != options.server)
      && target.schema == 2 && target.server == options.server && Some(target.fingerprint) == remote && target.configuredAt == Some(now)
      && target.workspace == TrimSpace(options.workspace) && target.repository == TrimSpace(options.repository)
      && target.project == TrimSpace(options.project)
  }

  lemma PlanOverExactly(c: Config, options: Options, server: Url, fingerprint: string, now: Time)
    requires options.server == Some(server)
    ensures var r := PlanOver(c, options, server, fingerprint, now);
      && (r.Ok? <==> MayBind(c, options, Some(fingerprint)))
      && (r.Ok? ==> PlansFor(c, options, Some(fingerprint), now, r.value))
  {
    CompleteExactly(c);
    FilledIsNotUnfilled(c);
    hide CompleteV2, Filled, Unfilled, TrimSpace;
  }

  /** Binding is accepted if and only if the request is well formed and the configuration may be
      overwritten; it keeps a complete configuration that says the same, and otherwise writes the one asked
      for and rotates the key exactly when the server changes. */
  lemma PlanExactly(file: File<Config>, options: Options, remote: Option<string>, now: Time)
    ensures var r := PlanBind(file, options, remote, now);
      && (r.Ok? <==> WellAsked(options, remote) && file.Present? && MayBind(file.value, options, remote))
      && (r.Ok? ==> PlansFor(file.value, options, remote, now, r.value))
  {
    UuidMeans(TrimSpace(options.workspace));
    UuidMeans(TrimSpace(options.repository));
    UuidMeans(TrimSpace(options.project));
    if file.Present? && options.server.Some? && remote.Some? {
      PlanOverExactly(file.value, options, options.server.value, remote.value, now);
    }
    hide ValidUuid, IsUuid, TrimSpace, PlanOver, MayBind, PlansFor;
  }

  lemma FilledIsNotUnfilled(c: Config)
    ensures !(Filled(c) && Unfilled(c))
  {
  }

  /** Why a request over a readable configuration with a server is refused. */
  lemma BindRefusedFor(c: Config, options: Options, remote: Option<string>, now: Time)
    requires WellAsked(options, remote) && c.server.Some? && !options.rebind
    ensures var r := PlanBind(Present(c), options, remote, now);
      && (c.server != options.server ==> r == Err(OtherServer))
      && (c.server == options.server && c.schema == 1 && !HasV2Fields(c) && c.project !in {"", options.project} ==> r == Err(OtherProject))
      && (c.server == options.server && c.schema == 1 && HasV2Fields(c) ==> r == Err(UnexpectedFields))
      && (c.server == options.server && c.schema == 2 && Filled(c) && !BindsTo(c, options, remote) ==> r == Err(OtherBinding))
      && (c.server == options.server && c.schema !in {1, 2} ==> r == Err(UnsupportedSchema))
  {
    UuidMeans(TrimSpace(options.workspace));
    UuidMeans(TrimSpace(options.repository));
    UuidMeans(TrimSpace(options.project));
    CompleteExactly(c);
    hide CompleteV2, ValidUuid, IsUuid, Filled, Unfilled, TrimSpace;
  }
}
