/** Process configuration (internal/config/config.go): the comma-list parser, the defaults that
    `Load` fills in, and `validate`. Reading the environment through viper is replaced by an
    `EnvValues` record holding what viper returns for each key. */
module Config {
  import opened Wrappers
  import opened Text
  import TrimSlices
  import opened Seqs

  datatype HttpConfig = HttpConfig(host: string, port: int)

  datatype DbConfig = DbConfig(dsn: string, maxOpenConns: int, maxIdleConns: int, connMaxLifetime: string)

  datatype ActsConfig = ActsConfig(
    vatRate: real,
    validStatuses: seq<string>,
    numberPrefix: string,
    workDescription: string)

  datatype Config = Config(
    environment: string,
    http: HttpConfig,
    db: DbConfig,
    accessSecret: string,
    acts: ActsConfig)

  /** What viper returns for each environment key (`GetString`, `GetInt`, `GetFloat64`). */
  datatype EnvValues = EnvValues(
    appEnv: string,
    httpHost: string,
    httpPort: int,
    dbDsn: string,
    dbMaxOpenConns: int,
    dbMaxIdleConns: int,
    dbConnMaxLifetime: string,
    jwtAccessSecret: string,
    actsVatRate: real,
    actsValidStatuses: string,
    actsNumberPrefix: string,
    actsWorkDescription: string)

  const DefaultEnvironment: string := "development"
  const DefaultHost: string := "0.0.0.0"
  const DefaultPort: int := 7089
  const DefaultVatRate: real := 12.0
  const DefaultStatuses: seq<string> := ["OK"]
  const DefaultNumberPrefix: string := "ACT"
  const DefaultWorkDescription: string := "Maintenance of snow disposal sites for receiving removed snow"

  const DsnRequired: string := "DB_DSN is required"
  const SecretRequired: string := "JWT_ACCESS_SECRET is required"
  const VatRateNegative: string := "ACTS_VAT_RATE must be >= 0"

  // ---------------------------------------------------------------------------
  // parseList
  // ---------------------------------------------------------------------------

  /** Trims every piece and keeps the non-empty ones, in order. */
  function KeepTrimmed(items: seq<string>): (r: seq<string>)
    ensures |r| <= |items|
    ensures forall i :: 0 <= i < |r| ==> r[i] != [] && TrimSpace(r[i]) == r[i]
  {
    if |items| == 0 then []
    else
      var head := TrimSpace(items[0]);
      (if head == [] then [] else [head]) + KeepTrimmed(items[1..])
  }

  /** `parseList`: splits a comma-separated value into trimmed, non-empty items. */
  function ParseList(raw: string): (r: seq<string>)
    ensures IsBlank(raw) ==> r == []
    ensures forall i :: 0 <= i < |r| ==> r[i] != [] && TrimSpace(r[i]) == r[i]
    ensures |r| <= Count(raw, ',') + 1
  {
    var trimmed := TrimSpace(raw);
    if trimmed == [] then []
    else
      TrimSpaceCount(raw, ',');
      KeepTrimmed(Split(trimmed, ','))
  }

  lemma {:induction false} CountConcat(a: string, b: string, c: char)
    ensures Count(a + b, c) == Count(a, c) + Count(b, c)
    decreases |a|
  {
    if |a| == 0 {
      assert a + b == b;
    } else {
      assert (a + b)[0] == a[0];
      assert (a + b)[1..] == a[1..] + b;
      CountConcat(a[1..], b, c);
    }
  }

  /** A slice never holds more occurrences than the whole string. */
  lemma CountSlice(s: string, i: nat, j: nat, c: char)
    requires i <= j <= |s|
    ensures Count(s[i..j], c) <= Count(s, c)
  {
    assert s == s[..i] + s[i..j] + s[j..];
    CountConcat(s[..i] + s[i..j], s[j..], c);
    CountConcat(s[..i], s[i..j], c);
  }

  /** Trimming white space never adds separators. */
  lemma TrimSpaceCount(s: string, c: char)
    ensures Count(TrimSpace(s), c) <= Count(s, c)
  {
    var left := TrimLeft(s, IsSpace);
    var right := TrimRight(left, IsSpace);
    assert TrimSpace(s) == right;
    assert s[|s| - |left|..|s|] == left;
    CountSlice(s, |s| - |left|, |s|, c);
    assert left[0..|right|] == right;
    CountSlice(left, 0, |right|, c);
  }

  /** Strings that `parseList` hands back unchanged: trimmed, non-empty, and without commas. */
  predicate ListItem(x: string) {
    x != [] && !IsSpace(x[0]) && !IsSpace(x[|x| - 1]) && ',' !in x
  }

  lemma ListItemIsTrimmed(x: string)
    requires ListItem(x)
    ensures TrimSpace(x) == x
  {
  }

  lemma {:induction false} KeepTrimmedOfItems(xs: seq<string>)
    requires forall i :: 0 <= i < |xs| ==> ListItem(xs[i])
    ensures KeepTrimmed(xs) == xs
    decreases |xs|
  {
    if |xs| > 0 {
      ListItemIsTrimmed(xs[0]);
      KeepTrimmedOfItems(xs[1..]);
      assert xs == [xs[0]] + xs[1..];
    }
  }

  lemma {:induction false} JoinEnds(xs: seq<string>, sep: char)
    requires |xs| >= 1
    requires forall i :: 0 <= i < |xs| ==> xs[i] != []
    ensures var j := Join(xs, sep);
            |j| > 0 && j[0] == xs[0][0] && j[|j| - 1] == xs[|xs| - 1][|xs[|xs| - 1]| - 1]
    decreases |xs|
  {
    if |xs| > 1 {
      JoinEnds(xs[1..], sep);
    }
  }

  /** `parseList` of items joined by commas gives the items back, in order. */
  lemma ParseListJoin(xs: seq<string>)
    requires |xs| >= 1
    requires forall i :: 0 <= i < |xs| ==> ListItem(xs[i])
    ensures ParseList(Join(xs, ',')) == xs
  {
    var j := Join(xs, ',');
    JoinEnds(xs, ',');
    assert ListItem(xs[0]) && ListItem(xs[|xs| - 1]);
    assert TrimSpace(j) == j;
    assert forall i :: 0 <= i < |xs| ==> ',' !in xs[i];
    SplitJoin(xs, ',');
    KeepTrimmedOfItems(xs);
    assert ParseList(j) == KeepTrimmed(Split(j, ','));
  }

  /** Trimming and dropping works piece by piece, so it keeps the order of the pieces. */
  lemma {:induction false} KeepTrimmedAppend(a: seq<string>, b: seq<string>)
    ensures KeepTrimmed(a + b) == KeepTrimmed(a) + KeepTrimmed(b)
    decreases |a|
  {
    if |a| == 0 {
      assert a + b == b;
    } else {
      var head := TrimSpace(a[0]);
      var first := if head == [] then [] else [head];
      assert KeepTrimmed(a + b) == first + KeepTrimmed(a[1..] + b) by {
        assert (a + b)[0] == a[0];
        assert (a + b)[1..] == a[1..] + b;
      }
      KeepTrimmedAppend(a[1..], b);
      Associative(first, KeepTrimmed(a[1..]), KeepTrimmed(b));
    }
  }




  /** One piece contributes its trimmed text, or nothing when it is blank. */
  lemma KeepTrimmedSingle(x: string)
    ensures KeepTrimmed([x]) == (if TrimSpace(x) == [] then [] else [TrimSpace(x)])
  {
    assert [x][1..] == [];
  }

  lemma BlankHasNoComma(p: string)
    requires IsBlank(p)
    ensures ',' !in p
  {
    forall k | 0 <= k < |p| ensures p[k] != ',' {
      assert IsSpace(p[k]);
    }
  }

  /** White space in front of a value only pads its first piece, which trimming undoes. */
  lemma PaddedFrontPieces(p: string, s: string)
    requires IsBlank(p)
    ensures KeepTrimmed(Split(p + s, ',')) == KeepTrimmed(Split(s, ','))
  {
    var pieces := Split(s, ',');
    var first := pieces[0];
    var rest := pieces[1..];
    assert KeepTrimmed(Split(p + s, ',')) == KeepTrimmed([p + first]) + KeepTrimmed(rest) by {
      BlankHasNoComma(p);
      SplitPrepend(p, s, ',');
      KeepTrimmedAppend([p + first], rest);
    }
    assert KeepTrimmed([p + first]) == KeepTrimmed([first]) by {
      TrimSlices.TrimSpacePaddedFront(p, first);
      KeepTrimmedSingle(p + first);
      KeepTrimmedSingle(first);
    }
    assert KeepTrimmed(pieces) == KeepTrimmed([first]) + KeepTrimmed(rest) by {
      SplitFirst(pieces);
      KeepTrimmedAppend([first], rest);
    }
  }

  /** White space after a value only pads its last piece, which trimming undoes. */
  lemma PaddedBackPieces(s: string, q: string)
    requires IsBlank(q)
    ensures KeepTrimmed(Split(s + q, ',')) == KeepTrimmed(Split(s, ','))
  {
    var pieces := Split(s, ',');
    var init := pieces[..|pieces| - 1];
    var last := pieces[|pieces| - 1];
    assert KeepTrimmed(Split(s + q, ',')) == KeepTrimmed(init) + KeepTrimmed([last + q]) by {
      BlankHasNoComma(q);
      SplitAppend(s, q, ',');
      KeepTrimmedAppend(init, [last + q]);
    }
    assert KeepTrimmed([last + q]) == KeepTrimmed([last]) by {
      TrimSlices.TrimSpacePaddedBack(last, q);
      KeepTrimmedSingle(last + q);
      KeepTrimmedSingle(last);
    }
    assert KeepTrimmed(pieces) == KeepTrimmed(init) + KeepTrimmed([last]) by {
      SplitLast(pieces);
      KeepTrimmedAppend(init, [last]);
    }
  }

  /** Trimming the whole value first changes nothing: `parseList` is the trimmed, non-empty
      comma-separated pieces of the raw value, in order. */
  lemma ParseListSplitsRaw(raw: string)
    ensures ParseList(raw) == KeepTrimmed(Split(raw, ','))
  {
    var t := TrimSpace(raw);
    if t == [] {
      assert KeepTrimmed(Split(raw, ',')) == [] by {
        BlankHasNoComma(raw);
        SplitWithoutSeparator(raw, ',');
        KeepTrimmedSingle(raw);
      }
    } else {
      var front, back := TrimSlices.TrimSpaceSplit(raw);
      assert raw == front + (t + back) by {
        Associative(front, t, back);
      }
      PaddedFrontPieces(front, t + back);
      PaddedBackPieces(t, back);
    }
  }

  /** `parseList` of two values joined by a comma lists the items of the first, then those of the
      second. */
  lemma ParseListConcat(a: string, b: string)
    ensures ParseList(a + "," + b) == ParseList(a) + ParseList(b)
  {
    ParseListSplitsRaw(a + "," + b);
    ParseListSplitsRaw(a);
    ParseListSplitsRaw(b);
    SplitConcat(a, b, ',');
    KeepTrimmedAppend(Split(a, ','), Split(b, ','));
  }

  /** A value without a comma is one item, trimmed, unless it is blank. */
  lemma ParseListOfPiece(x: string)
    requires ',' !in x
    ensures ParseList(x) == (if IsBlank(x) then [] else [TrimSpace(x)])
  {
    ParseListSplitsRaw(x);
    SplitWithoutSeparator(x, ',');
    KeepTrimmedSingle(x);
  }

  // ---------------------------------------------------------------------------
  // Load
  // ---------------------------------------------------------------------------

  /** The configuration as read, before any default is applied. */
  function FromEnv(env: EnvValues): (cfg: Config)
    ensures cfg.acts.validStatuses == ParseList(env.actsValidStatuses)
  {
    Config(
      env.appEnv,
      HttpConfig(env.httpHost, env.httpPort),
      DbConfig(env.dbDsn, env.dbMaxOpenConns, env.dbMaxIdleConns, env.dbConnMaxLifetime),
      env.jwtAccessSecret,
      ActsConfig(env.actsVatRate, ParseList(env.actsValidStatuses), env.actsNumberPrefix, env.actsWorkDescription))
  }

  /** The default-filling block of `Load`: each missing value gets its default, every value that
      is present is kept, and the database and secret settings are never touched. */
  function ApplyDefaults(cfg: Config): (r: Config)
    ensures r.environment == (if cfg.environment == "" then DefaultEnvironment else cfg.environment)
    ensures r.http.host == (if cfg.http.host == "" then DefaultHost else cfg.http.host)
    ensures r.http.port == (if cfg.http.port == 0 then DefaultPort else cfg.http.port)
    ensures r.acts.vatRate == (if cfg.acts.vatRate <= 0.0 then DefaultVatRate else cfg.acts.vatRate)
    ensures r.acts.validStatuses == (if |cfg.acts.validStatuses| == 0 then DefaultStatuses else cfg.acts.validStatuses)
    ensures r.acts.numberPrefix == (if cfg.acts.numberPrefix == "" then DefaultNumberPrefix else cfg.acts.numberPrefix)
    ensures r.acts.workDescription ==
              (if cfg.acts.workDescription == "" then DefaultWorkDescription else cfg.acts.workDescription)
    ensures r.db == cfg.db && r.accessSecret == cfg.accessSecret
  {
    var environment := if cfg.environment == "" then DefaultEnvironment else cfg.environment;
    var host := if cfg.http.host == "" then DefaultHost else cfg.http.host;
    var port := if cfg.http.port == 0 then DefaultPort else cfg.http.port;
    var vat := if cfg.acts.vatRate <= 0.0 then DefaultVatRate else cfg.acts.vatRate;
    var statuses := if |cfg.acts.validStatuses| == 0 then DefaultStatuses else cfg.acts.validStatuses;
    var prefix := if cfg.acts.numberPrefix == "" then DefaultNumberPrefix else cfg.acts.numberPrefix;
    var work := if cfg.acts.workDescription == "" then DefaultWorkDescription else cfg.acts.workDescription;
    cfg.(environment := environment,
         http := HttpConfig(host, port),
         acts := ActsConfig(vat, statuses, prefix, work))
  }

  /** What the defaults guarantee: every defaulted value is present and the VAT rate is positive. */
  predicate Defaulted(cfg: Config) {
    && cfg.environment != "" && cfg.http.host != "" && cfg.http.port != 0
    && cfg.acts.vatRate > 0.0 && |cfg.acts.validStatuses| > 0
    && cfg.acts.numberPrefix != "" && cfg.acts.workDescription != ""
  }

  /** The defaults establish `Defaulted`, and applying them again changes nothing. */
  lemma ApplyDefaultsEstablishes(cfg: Config)
    ensures Defaulted(ApplyDefaults(cfg))
    ensures ApplyDefaults(ApplyDefaults(cfg)) == ApplyDefaults(cfg)
    ensures Defaulted(cfg) ==> ApplyDefaults(cfg) == cfg
  {
  }

  /** `validate`: the first problem found, checking the DSN, then the secret, then the VAT rate. */
  function Validate(cfg: Config): (r: Option<string>)
    ensures cfg.db.dsn == "" ==> r == Some(DsnRequired)
    ensures cfg.db.dsn != "" && cfg.accessSecret == "" ==> r == Some(SecretRequired)
    ensures r.None? <==> cfg.db.dsn != "" && cfg.accessSecret != "" && cfg.acts.vatRate >= 0.0
  {
    if cfg.db.dsn == "" then Some(DsnRequired)
    else if cfg.accessSecret == "" then Some(SecretRequired)
    else if cfg.acts.vatRate < 0.0 then Some(VatRateNegative)
    else None
  }

  /** `Load`: read, fill defaults, validate. It fails exactly when the DSN or the access secret is
      missing; the VAT check of `validate` can never fire because the defaults made the rate positive. */
  function Load(env: EnvValues): (r: Result<Config, string>)
    ensures r.Ok? <==> env.dbDsn != "" && env.jwtAccessSecret != ""
    ensures r.Err? ==> r.error == (if env.dbDsn == "" then DsnRequired else SecretRequired)
    ensures r.Ok? ==> r.value == ApplyDefaults(FromEnv(env)) && Defaulted(r.value)
  {
    var cfg := ApplyDefaults(FromEnv(env));
    ApplyDefaultsEstablishes(FromEnv(env));
    match Validate(cfg)
    case Some(message) => Err(message)
    case None => Ok(cfg)
  }
}
