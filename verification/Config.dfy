/** `builder_from_options`: every configuration starts from a preset and takes away from it. The
    preset is arbitrary here, so what is proved does not depend on what n0 puts in it. */
module Config {
  import opened Prelude
  import opened Addresses

  datatype RelayModeOption = Default | Disabled | Custom(urls: seq<string>)

  datatype EndpointOptions = EndpointOptions(
    alpns: seq<string>,
    secretKey: Option<Bytes>,
    relayMode: Option<RelayModeOption>,
    addressLookup: bool,
    bindAddr: Option<string>,
    externalAddrs: Option<seq<string>>,
    warmUpOnline: bool)

  datatype RelayMode = NoRelays | Relays(urls: seq<Url>)

  /** The library's builder; `other` stands for whatever else a preset may set. */
  datatype Builder = Builder(
    relayMode: RelayMode,
    lookups: seq<string>,
    secretKey: Option<Bytes>,
    alpns: seq<Bytes>,
    bindAddrs: seq<Sock>,
    externalAddrs: seq<Sock>,
    other: Bytes)

  datatype ConfigError = BadRelayUrl(index: nat) | BadSecretKey | BadBindAddr | BadExternalAddr(index: nat)

  const SECRET_KEY_BYTES := 32

  // -------------------------------------------------------------- specification

  function RelayChoice(o: EndpointOptions): RelayModeOption {
    if o.relayMode.None? then Default else o.relayMode.value
  }

  function RelayTexts(o: EndpointOptions): seq<string> {
    if RelayChoice(o).Custom? then RelayChoice(o).urls else []
  }

  function ExternalTexts(o: EndpointOptions): seq<string> {
    if o.externalAddrs.None? then [] else o.externalAddrs.value
  }

  predicate UrlParses(lib: Lib, t: string) {
    lib.parseUrl(t).Some?
  }

  predicate Valid(lib: Lib, o: EndpointOptions) {
    && (forall i :: 0 <= i < |RelayTexts(o)| ==> UrlParses(lib, RelayTexts(o)[i]))
    && (o.secretKey.Some? ==> |o.secretKey.value| == SECRET_KEY_BYTES)
    && (o.bindAddr.Some? ==> Parses(lib, o.bindAddr.value))
    && (forall i :: 0 <= i < |ExternalTexts(o)| ==> Parses(lib, ExternalTexts(o)[i]))
  }

  function ParsedUrls(lib: Lib, texts: seq<string>): (r: seq<Url>)
    requires forall i :: 0 <= i < |texts| ==> UrlParses(lib, texts[i])
    ensures |r| == |texts| && forall i :: 0 <= i < |r| ==> lib.parseUrl(texts[i]) == Some(r[i])
  {
    if texts == [] then [] else
      assert UrlParses(lib, texts[0]);
      [lib.parseUrl(texts[0]).value] + ParsedUrls(lib, texts[1..])
  }

  function ParsedSocks(lib: Lib, texts: seq<string>): (r: seq<Sock>)
    requires forall i :: 0 <= i < |texts| ==> Parses(lib, texts[i])
    ensures |r| == |texts| && forall i :: 0 <= i < |r| ==> lib.parseSock(texts[i]) == Some(r[i])
  {
    if texts == [] then [] else
      assert Parses(lib, texts[0]);
      [lib.parseSock(texts[0]).value] + ParsedSocks(lib, texts[1..])
  }

  function Encoded(utf8: string -> Bytes, texts: seq<string>): (r: seq<Bytes>)
    ensures |r| == |texts| && forall i :: 0 <= i < |r| ==> r[i] == utf8(texts[i])
  {
    if texts == [] then [] else [utf8(texts[0])] + Encoded(utf8, texts[1..])
  }

  /** The configuration valid options ask for, as one record. */
  function Configured(lib: Lib, utf8: string -> Bytes, preset: Builder, o: EndpointOptions): Builder
    requires Valid(lib, o)
  {
    Builder(
      match RelayChoice(o) {
        case Default => preset.relayMode
        case Disabled => NoRelays
        case Custom(urls) => Relays(ParsedUrls(lib, RelayTexts(o)))
      },
      if o.addressLookup then preset.lookups else [],
      if o.secretKey.Some? then o.secretKey else preset.secretKey,
      Encoded(utf8, o.alpns),
      preset.bindAddrs + (if o.bindAddr.Some? then [lib.parseSock(o.bindAddr.value).value] else []),
      preset.externalAddrs + ParsedSocks(lib, ExternalTexts(o)),
      preset.other)
  }

  /** e is the first thing wrong: relay URLs, then key, then bind address, then external ones. */
  predicate FirstError(lib: Lib, o: EndpointOptions, e: ConfigError) {
    var relaysOk := forall i :: 0 <= i < |RelayTexts(o)| ==> UrlParses(lib, RelayTexts(o)[i]);
    var keyOk := o.secretKey.Some? ==> |o.secretKey.value| == SECRET_KEY_BYTES;
    var bindOk := o.bindAddr.Some? ==> Parses(lib, o.bindAddr.value);
    match e
    case BadRelayUrl(k) =>
      && k < |RelayTexts(o)| && !UrlParses(lib, RelayTexts(o)[k])
      && forall i :: 0 <= i < k ==> UrlParses(lib, RelayTexts(o)[i])
    case BadSecretKey => relaysOk && !keyOk
    case BadBindAddr => relaysOk && keyOk && !bindOk
    case BadExternalAddr(k) =>
      && relaysOk && keyOk && bindOk
      && k < |ExternalTexts(o)| && !Parses(lib, ExternalTexts(o)[k])
      && forall i :: 0 <= i < k ==> Parses(lib, ExternalTexts(o)[i])
  }

  /** Builder b is what options o ask for on top of the preset, field by field: the preset's relays
      by default, none when disabled, the given ones in order when custom; no lookup service when
      lookup is off; a given key; the ALPNs as bytes; a bind address after the preset's, and the
      external addresses, in order, after the preset's; all else as in the preset. */
  predicate AsAsked(lib: Lib, utf8: string -> Bytes, preset: Builder, o: EndpointOptions, b: Builder) {
    && (o.relayMode == None || o.relayMode == Some(Default) ==> b.relayMode == preset.relayMode)
    && (o.relayMode == Some(Disabled) ==> b.relayMode == NoRelays)
    && (o.relayMode.Some? && o.relayMode.value.Custom? ==> b.relayMode.Relays? && UrlsMatch(lib, o.relayMode.value.urls, b.relayMode.urls))
    && b.lookups == (if o.addressLookup then preset.lookups else [])
    && (if o.secretKey.Some? then b.secretKey == o.secretKey && |o.secretKey.value| == 32 else b.secretKey == preset.secretKey)
    && |b.alpns| == |o.alpns| && (forall i :: 0 <= i < |o.alpns| ==> b.alpns[i] == utf8(o.alpns[i]))
    && Appended(lib, preset.bindAddrs, if o.bindAddr.Some? then [o.bindAddr.value] else [], b.bindAddrs)
    && Appended(lib, preset.externalAddrs, if o.externalAddrs.Some? then o.externalAddrs.value else [], b.externalAddrs)
    && b.other == preset.other
  }

  predicate UrlsMatch(lib: Lib, texts: seq<string>, urls: seq<Url>) {
    |urls| == |texts| && forall i :: 0 <= i < |texts| ==> lib.parseUrl(texts[i]) == Some(urls[i])
  }

  /** The addresses the texts denote follow the ones before, in order. */
  predicate Appended(lib: Lib, before: seq<Sock>, texts: seq<string>, after: seq<Sock>) {
    && before <= after && |after| == |before| + |texts|
    && forall i :: 0 <= i < |texts| ==> lib.parseSock(texts[i]) == Some(after[|before| + i])
  }

  lemma ConfiguredIsAsAsked(lib: Lib, utf8: string -> Bytes, preset: Builder, o: EndpointOptions)
    requires Valid(lib, o)
    ensures AsAsked(lib, utf8, preset, o, Configured(lib, utf8, preset, o))
  {
    if o.bindAddr.Some? {
      assert Parses(lib, o.bindAddr.value);
    }
  }

  // ---------------------------------------------------------------- the builder

  method CollectUrls(lib: Lib, texts: seq<string>) returns (r: Result<seq<Url>, nat>)
    ensures r.Success? ==>
      && |r.value| == |texts|
      && forall i :: 0 <= i < |texts| ==> UrlParses(lib, texts[i]) && lib.parseUrl(texts[i]) == Some(r.value[i])
    ensures r.Failure? ==>
      && r.error < |texts| && !UrlParses(lib, texts[r.error])
      && forall i :: 0 <= i < r.error ==> UrlParses(lib, texts[i])
  {
    var urls: seq<Url> := [];
    for i := 0 to |texts|
      invariant |urls| == i
      invariant forall j :: 0 <= j < i ==> UrlParses(lib, texts[j]) && lib.parseUrl(texts[j]) == Some(urls[j])
    {
      var url := lib.parseUrl(texts[i]);
      if url.None? {
        return Failure(i);
      }
      urls := urls + [url.value];
    }
    r := Success(urls);
  }

  /** Adds the external addresses one by one, leaving at the first that does not parse. */
  method AddExternalAddrs(lib: Lib, start: Builder, texts: seq<string>) returns (r: Result<Builder, nat>)
    ensures r.Success? ==>
      && (forall i :: 0 <= i < |texts| ==> Parses(lib, texts[i]))
      && r.value == start.(externalAddrs := start.externalAddrs + ParsedSocks(lib, texts))
    ensures r.Failure? ==>
      && r.error < |texts| && !Parses(lib, texts[r.error])
      && forall i :: 0 <= i < r.error ==> Parses(lib, texts[i])
  {
    var builder := start;
    ghost var added: seq<Sock> := [];
    for i := 0 to |texts|
      invariant |added| == i && builder == start.(externalAddrs := start.externalAddrs + added)
      invariant forall j :: 0 <= j < i ==> Parses(lib, texts[j]) && lib.parseSock(texts[j]) == Some(added[j])
    {
      var sock := lib.parseSock(texts[i]);
      if sock.None? {
        return Failure(i);
      }
      builder := builder.(externalAddrs := builder.externalAddrs + [sock.value]);
      added := added + [sock.value];
    }
    assert added == ParsedSocks(lib, texts);
    r := Success(builder);
  }

  /** The relay transport: the preset's, none, or the given URLs, leaving at the first bad one. */
  method ChooseRelays(lib: Lib, preset: Builder, options: EndpointOptions) returns (r: Result<Builder, nat>)
    ensures r.Success? ==>
      && (forall i :: 0 <= i < |RelayTexts(options)| ==> UrlParses(lib, RelayTexts(options)[i]))
      && r.value == preset.(relayMode :=
           match RelayChoice(options) {
             case Default => preset.relayMode
             case Disabled => NoRelays
             case Custom(_) => Relays(ParsedUrls(lib, RelayTexts(options)))
           })
    ensures r.Failure? ==>
      && r.error < |RelayTexts(options)| && !UrlParses(lib, RelayTexts(options)[r.error])
      && forall i :: 0 <= i < r.error ==> UrlParses(lib, RelayTexts(options)[i])
  {
    match RelayChoice(options) {
      case Default => r := Success(preset);
      case Disabled => r := Success(preset.(relayMode := NoRelays));
      case Custom(urls) =>
        var collected := CollectUrls(lib, urls);
        if collected.Failure? {
          assert !UrlParses(lib, RelayTexts(options)[collected.error]);
          return Failure(collected.error);
        }
        assert collected.value == ParsedUrls(lib, urls);
        r := Success(preset.(relayMode := Relays(collected.value)));
    }
  }

  /** Step by step, as the source does it: preset, relay mode, lookups, key, ALPNs, bind
      address, external addresses, leaving at the first error. For every preset and every set
      of options that is the declarative record, or the first error;
      and that record is what was asked for, field by field. */
  method BuilderFromOptions(lib: Lib, utf8: string -> Bytes, preset: Builder, options: EndpointOptions)
    returns (r: Result<Builder, ConfigError>)
    ensures r.Success? <==> Valid(lib, options)
    ensures r.Success? ==> r.value == Configured(lib, utf8, preset, options)
    ensures r.Failure? ==> FirstError(lib, options, r.error)
    ensures r.Success? ==> AsAsked(lib, utf8, preset, options, r.value)
  {
    var relays := ChooseRelays(lib, preset, options);
    if relays.Failure? {
      return Failure(BadRelayUrl(relays.error));
    }
    var builder := relays.value;
    if !options.addressLookup {
      builder := builder.(lookups := []);
    }
    if options.secretKey.Some? {
      if |options.secretKey.value| != SECRET_KEY_BYTES {
        return Failure(BadSecretKey);
      }
      builder := builder.(secretKey := options.secretKey);
    }
    builder := builder.(alpns := Encoded(utf8, options.alpns));
    if options.bindAddr.Some? {
      var sock := lib.parseSock(options.bindAddr.value);
      if sock.None? {
        return Failure(BadBindAddr);
      }
      builder := builder.(bindAddrs := builder.bindAddrs + [sock.value]);
    } else {
      assert builder.bindAddrs + [] == builder.bindAddrs;
    }
    var extended := AddExternalAddrs(lib, builder, ExternalTexts(options));
    if extended.Failure? {
      return Failure(BadExternalAddr(extended.error));
    }
    r := Success(extended.value);
    ConfiguredIsAsAsked(lib, utf8, preset, options);
  }

  // ------------------------------------------------------------------ what it means

  /** Options are valid exactly when nothing is the first error, and there is only one first. */
  lemma ErrorsAreExact(lib: Lib, o: EndpointOptions, e: ConfigError, f: ConfigError)
    ensures FirstError(lib, o, e) ==> !Valid(lib, o)
    ensures FirstError(lib, o, e) && FirstError(lib, o, f) ==> e == f
  {
    if FirstError(lib, o, e) && FirstError(lib, o, f) {
      if e.BadRelayUrl? && f.BadRelayUrl? {
        assert !(e.index < f.index) && !(f.index < e.index);
      } else if e.BadExternalAddr? && f.BadExternalAddr? {
        assert !(e.index < f.index) && !(f.index < e.index);
      }
    }
  }

  /** Whatever the preset holds: choosing relays changes nothing but the relays, and turning
      lookup off removes every lookup service and nothing else. */
  lemma ChoicesAreIndependent(lib: Lib, utf8: string -> Bytes, preset: Builder, o: EndpointOptions, mode: Option<RelayModeOption>)
    requires Valid(lib, o) && Valid(lib, o.(relayMode := mode))
    ensures var b := Configured(lib, utf8, preset, o); var c := Configured(lib, utf8, preset, o.(relayMode := mode));
      c == b.(relayMode := c.relayMode) && c.lookups == b.lookups
    ensures Valid(lib, o.(addressLookup := false))
    ensures var b := Configured(lib, utf8, preset, o); var c := Configured(lib, utf8, preset, o.(addressLookup := false));
      c == b.(lookups := [])
    ensures o.addressLookup ==> Configured(lib, utf8, preset, o).lookups == preset.lookups
  {
    var off := o.(addressLookup := false);
    assert RelayTexts(off) == RelayTexts(o) && ExternalTexts(off) == ExternalTexts(o);
    var other := o.(relayMode := mode);
    assert ExternalTexts(other) == ExternalTexts(o);
  }

  /** `bind` is `bind_with` at its defaults: the preset with its ALPNs and, if given, the key. */
  function BindOptions(alpns: seq<string>, secretKey: Option<Bytes>): EndpointOptions {
    EndpointOptions(alpns, secretKey, None, true, None, None, true)
  }

  /** `bind`: whatever the preset holds stays, but for the ALPNs and a given key; it fails exactly
      when the key has the wrong length. */
  method Bind(lib: Lib, utf8: string -> Bytes, preset: Builder, alpns: seq<string>, secretKey: Option<Bytes>)
    returns (r: Result<Builder, ConfigError>)
    ensures r.Failure? <==> secretKey.Some? && |secretKey.value| != 32
    ensures r.Failure? ==> r.error == BadSecretKey
    ensures r.Success? ==>
      && r.value == preset.(alpns := r.value.alpns, secretKey := if secretKey.Some? then secretKey else preset.secretKey)
      && |r.value.alpns| == |alpns| && forall i :: 0 <= i < |alpns| ==> r.value.alpns[i] == utf8(alpns[i])
  {
    r := BuilderFromOptions(lib, utf8, preset, BindOptions(alpns, secretKey));
  }

  lemma BindOnlySetsAlpnsAndKey(lib: Lib, utf8: string -> Bytes, preset: Builder, alpns: seq<string>, secretKey: Option<Bytes>)
    ensures Valid(lib, BindOptions(alpns, secretKey)) <==> (secretKey.Some? ==> |secretKey.value| == SECRET_KEY_BYTES)
    ensures Valid(lib, BindOptions(alpns, secretKey)) ==>
      Configured(lib, utf8, preset, BindOptions(alpns, secretKey))
        == preset.(alpns := Encoded(utf8, alpns), secretKey := if secretKey.Some? then secretKey else preset.secretKey)
  {
    assert preset.bindAddrs + [] == preset.bindAddrs && preset.externalAddrs + [] == preset.externalAddrs;
  }
}
