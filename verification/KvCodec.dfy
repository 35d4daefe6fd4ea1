/** Services as keys and values of the etcd store (etcd/client.py, core/service.py). JSON is taken as a codec for a
    map from strings to values; what it does to integers is modelled, because the reader asks for them as strings. */
module KvCodec {
  import opened Options

  /** A JSON value of a field: null, a string or an integer. */
  datatype Value = Null | Text(text: string) | Number(n: int)

  type Fields = map<string, Value>

  /** The names bound to parameters on the way through Service and ServiceData: no metadata key can be one of these. */
  predicate Reserved(name: string) {
    name in {"hostname", "port", "ttl", "instance", "service_type", "service_name", "self"}
  }

  datatype Service = Service(instance: string, serviceType: string, serviceName: string,
                             hostname: Value, port: Value, ttl: Value, metadata: Fields)
  {
    /** What the constructor and the gRPC request guarantee: host and metadata are strings, port and ttl integers. */
    predicate WellFormed() {
      && hostname.Text? && port.Number? && ttl.Number?
      && forall name :: name in metadata ==> !Reserved(name) && metadata[name].Text?
    }
  }

  // ---------------------------------------------------------------- splitting and counting

  function Count(s: string, c: char): nat {
    if s == [] then 0 else Count(s[..|s| - 1], c) + (if s[|s| - 1] == c then 1 else 0)
  }

  /** str.split: the pieces between the separators */
  function Split(s: string, c: char): (r: seq<string>)
    ensures |r| >= 1
  {
    if s == [] then [[]]
    else
      var n := |s| - 1;
      var r := Split(s[..n], c);
      if s[n] == c then r + [[]] else r[..|r| - 1] + [r[|r| - 1] + [s[n]]]
  }

  lemma {:induction false} SplitSize(s: string, c: char)
    ensures |Split(s, c)| == Count(s, c) + 1
  {
    if s != [] {
      SplitSize(s[..|s| - 1], c);
    }
  }

  lemma {:induction false} SplitPlain(s: string, c: char)
    requires c !in s
    ensures Split(s, c) == [s] && Count(s, c) == 0
  {
    if s != [] {
      var n := |s| - 1;
      SplitPlain(s[..n], c);
      assert s == s[..n] + [s[n]];
      assert s[n] in s;
    }
  }

  lemma {:induction false} CountPlain(s: string, c: char)
    ensures Count(s, c) == 0 <==> c !in s
  {
    if s != [] {
      var n := |s| - 1;
      CountPlain(s[..n], c);
      assert s == s[..n] + [s[n]];
    }
  }

  /** One more character. */
  lemma SplitMore(s: string, c: char, x: char)
    ensures var r := Split(s, c); Split(s + [x], c) == if x == c then r + [[]] else r[..|r| - 1] + [r[|r| - 1] + [x]]
    ensures Count(s + [x], c) == Count(s, c) + (if x == c then 1 else 0)
  {
    assert (s + [x])[..|s|] == s;
  }

  /** A separator cuts: what is on either side of it is split by itself. */
  lemma {:induction false} SplitAt(a: string, c: char, b: string)
    ensures Split(a + [c] + b, c) == Split(a, c) + Split(b, c)
    ensures Count(a + [c] + b, c) == Count(a, c) + 1 + Count(b, c)
  {
    hide Split, Count;
    if b == [] {
      SplitMore(a, c, c);
      SplitNothing(c);
      assert a + [c] + b == a + [c];
    } else {
      var n := |b| - 1;
      var d, x := b[..n], b[n];
      SplitAt(a, c, d);
      SplitMore(a + [c] + d, c, x);
      SplitMore(d, c, x);
      assert b == d + [x] && a + [c] + b == a + [c] + d + [x];
      LastPiece(Split(a, c), Split(d, c), x);
    }
  }

  lemma SplitNothing(c: char)
    ensures Split([], c) == [[]] && Count([], c) == 0
  {
  }

  lemma LastPiece(p: seq<string>, q: seq<string>, x: char)
    requires |q| >= 1
    ensures p + q + [[]] == p + (q + [[]])
    ensures (p + q)[..|p + q| - 1] + [(p + q)[|p + q| - 1] + [x]] == p + (q[..|q| - 1] + [q[|q| - 1] + [x]])
  {
  }

  // ---------------------------------------------------------------- numbers as strings

  function Digit(d: nat): char
    requires d < 10
  {
    ['0', '1', '2', '3', '4', '5', '6', '7', '8', '9'][d]
  }

  function DigitValue(c: char): Option<nat> {
    if '0' <= c <= '9' then Some((c - '0') as nat) else None
  }

  function Digits(n: nat): string {
    if n < 10 then [Digit(n)] else Digits(n / 10) + [Digit(n % 10)]
  }

  /** The literal that json.dumps writes for an integer, and that parse_int=str hands on as it is. */
  function Literal(n: int): string { if n < 0 then ['-'] + Digits(-n) else Digits(n) }

  /** int() of a string of digits. */
  function Natural(s: string): Option<nat> {
    if s == [] then None
    else
      var n := |s| - 1;
      match DigitValue(s[n])
      case None => None
      case Some(d) =>
        if n == 0 then Some(d) else (match Natural(s[..n]) case None => None case Some(m) => Some(10 * m + d))
  }

  function Integer(s: string): Option<int> {
    if s != [] && s[0] == '-' then (match Natural(s[1..]) case None => None case Some(n) => Some(-(n as int)))
    else (match Natural(s) case None => None case Some(n) => Some(n as int))
  }

  lemma {:induction false} NaturalOfDigits(n: nat)
    ensures Digits(n) != [] && Natural(Digits(n)) == Some(n) && '0' <= Digits(n)[0] <= '9'
  {
    if n >= 10 {
      NaturalOfDigits(n / 10);
      var s := Digits(n);
      assert s[..|s| - 1] == Digits(n / 10);
    }
  }

  lemma IntegerOfLiteral(n: int)
    ensures Integer(Literal(n)) == Some(n)
  {
    NaturalOfDigits(if n < 0 then -n else n);
    hide Digits, Natural;
    if n < 0 {
      assert Literal(n)[1..] == Digits(-n);
    }
  }

  /** The number that a value stands for: port and ttl are passed through int(). */
  function AsNumber(v: Value): Option<int> {
    match v
    case Null => None
    case Text(s) => Integer(s)
    case Number(n) => Some(n)
  }

  /** json.loads(json.dumps(fields), parse_int=str) */
  function Reloaded(fields: Fields): Fields {
    map name | name in fields :: match fields[name] { case Number(n) => Text(Literal(n)) case v => v }
  }

  // ---------------------------------------------------------------- keys and values

  /** EtcdClient.__init__: the namespace gets a trailing slash. */
  function Namespace(name: string): (r: string)
    ensures r != [] && r[|r| - 1] == '/'
  {
    if name != [] && name[|name| - 1] == '/' then name else name + ['/']
  }

  /** Service.extended_metadata */
  function ExtendedMetadata(s: Service): Fields {
    map["hostname" := s.hostname, "port" := s.port, "ttl" := s.ttl] + s.metadata
  }

  function Key(namespace: string, s: Service): string {
    namespace + s.instance + ['/'] + s.serviceType + ['/'] + s.serviceName
  }

  /** What kv_to_service gives: a service, None, or an exception. */
  datatype Parse = Found(service: Service) | NotAService | TypeError

  /** kv_to_service, with the fields that json.loads gave, or none for a deleted key. The pieces of the key behind
      the second slash become positional arguments of Service, the fields keyword arguments: a parameter given
      twice or not at all, or too many arguments, raise. */
  function KvToService(namespace: string, key: string, fields: Option<Fields>): Parse {
    if !(namespace <= key) then NotAService
    else
      var arr := Split(key, '/');
      if |arr| != 3 + Count(namespace, '/') then NotAService
      else
        var metadata := if fields.Some? then fields.value else map[];
        if |arr| > 5 || |arr| < 4
          || Twice(metadata, if |arr| == 5 then IDENTITY else {"self", "instance", "service_type"}) then TypeError
        else if |arr| == 5 then Found(Construct(arr[2], arr[3], arr[4], metadata))
        else if "service_name" !in metadata then TypeError
        else Found(Construct(arr[2], arr[3], Str(metadata["service_name"]), metadata - {"service_name"}))
  }

  const IDENTITY: set<string> := {"self", "instance", "service_type", "service_name"}

  predicate Twice(metadata: Fields, bound: set<string>) { exists name :: name in metadata && name in bound }

  /** Service.__init__ */
  function Construct(instance: string, serviceType: string, serviceName: string, metadata: Fields): Service {
    Service(instance, serviceType, serviceName, Get(metadata, "hostname"), Get(metadata, "port"), Get(metadata, "ttl"),
            metadata - {"hostname", "port", "ttl"})
  }

  /** str() of a value */
  function Str(v: Value): string {
    match v
    case Null => "None"
    case Text(s) => s
    case Number(n) => Literal(n)
  }

  function Get(fields: Fields, name: string): Value { if name in fields then fields[name] else Null }

  /** Equal up to the port and ttl being strings of the same numbers. */
  predicate SameService(a: Service, b: Service) {
    && a.instance == b.instance && a.serviceType == b.serviceType && a.serviceName == b.serviceName
    && a.hostname == b.hostname && a.metadata == b.metadata
    && AsNumber(a.port) == AsNumber(b.port) && AsNumber(a.ttl) == AsNumber(b.ttl)
  }

  predicate Plain(s: Service) { '/' !in s.instance && '/' !in s.serviceType && '/' !in s.serviceName }

  /** The pieces of a service's key. */
  lemma KeyPieces(namespace: string, s: Service)
    requires namespace != [] && namespace[|namespace| - 1] == '/'
    ensures namespace <= Key(namespace, s)
    ensures |Split(Key(namespace, s), '/')|
            == Count(namespace, '/') + 3 + Count(s.instance, '/') + Count(s.serviceType, '/')
              + Count(s.serviceName, '/')
    ensures Split(Key(namespace, s), '/')
            == Split(namespace[..|namespace| - 1], '/') + Split(s.instance, '/') + Split(s.serviceType, '/')
              + Split(s.serviceName, '/')
    ensures |Split(namespace[..|namespace| - 1], '/')| == Count(namespace, '/')
  {
    hide Split, Count;
    var p := namespace[..|namespace| - 1];
    assert namespace == p + ['/'];
    assert p + ['/'] + [] == namespace;
    SplitAt(p, '/', []);
    SplitAt(p, '/', s.instance);
    var q := p + ['/'] + s.instance;
    SplitAt(q, '/', s.serviceType);
    var r := q + ['/'] + s.serviceType;
    SplitAt(r, '/', s.serviceName);
    SplitSize(p, '/');
    SplitSize(s.instance, '/');
    SplitSize(s.serviceType, '/');
    SplitSize(s.serviceName, '/');
    SplitNothing('/');
    assert Key(namespace, s) == r + ['/'] + s.serviceName;
    assert namespace <= Key(namespace, s) by {
      assert Key(namespace, s) == namespace + (s.instance + ['/'] + s.serviceType + ['/'] + s.serviceName);
    }
  }

  /** kv_to_service undoes service_to_kv if and only if no part of the service's identity has a slash and the namespace
      has exactly two. */
  lemma RoundTrip(name: string, s: Service)
    requires s.WellFormed()
    ensures var namespace := Namespace(name);
            var parse := KvToService(namespace, Key(namespace, s), Some(Reloaded(ExtendedMetadata(s))));
            parse.Found? && SameService(parse.service, s) <==> Plain(s) && Count(namespace, '/') == 2
  {
    if Plain(s) && Count(Namespace(name), '/') == 2 {
      PlainReturns(name, s);
    } else {
      OthersFail(name, s);
    }
  }

  lemma PlainReturns(name: string, s: Service)
    requires s.WellFormed() && Plain(s) && Count(Namespace(name), '/') == 2
    ensures var namespace := Namespace(name);
            var parse := KvToService(namespace, Key(namespace, s), Some(Reloaded(ExtendedMetadata(s))));
            parse.Found? && SameService(parse.service, s)
  {
    var namespace := Namespace(name);
    KeyPieces(namespace, s);
    SplitPlain(s.instance, '/');
    SplitPlain(s.serviceType, '/');
    SplitPlain(s.serviceName, '/');
    FieldsReturn(s);
    NoneTwice(Reloaded(ExtendedMetadata(s)));
    var arr := Split(Key(namespace, s), '/');
    assert arr[2] == s.instance && arr[3] == s.serviceType && arr[4] == s.serviceName;
    hide Split, Count, Reloaded, ExtendedMetadata, Namespace, Key, Get, AsNumber, Twice;
    assert KvToService(namespace, Key(namespace, s), Some(Reloaded(ExtendedMetadata(s))))
           == Found(Construct(s.instance, s.serviceType, s.serviceName, Reloaded(ExtendedMetadata(s))));
  }

  lemma NoneTwice(m: Fields)
    requires forall name :: name in m && Reserved(name) ==> name in {"hostname", "port", "ttl"}
    ensures !Twice(m, IDENTITY) && "service_name" !in m
  {
    assert Reserved("service_name");
    assert forall name :: name in IDENTITY ==> Reserved(name) && name !in {"hostname", "port", "ttl"};
  }

  lemma OthersFail(name: string, s: Service)
    requires s.WellFormed() && !(Plain(s) && Count(Namespace(name), '/') == 2)
    ensures var namespace := Namespace(name);
            !KvToService(namespace, Key(namespace, s), Some(Reloaded(ExtendedMetadata(s)))).Found?
  {
    PiecesWhenPlain(Namespace(name), s);
    FieldsReturn(s);
    NoneTwice(Reloaded(ExtendedMetadata(s)));
    hide Split, Count, Reloaded, ExtendedMetadata, Namespace, Key, Construct, Twice, Plain;
  }

  lemma PiecesWhenPlain(namespace: string, s: Service)
    requires namespace != [] && namespace[|namespace| - 1] == '/'
    ensures |Split(Key(namespace, s), '/')| == 3 + Count(namespace, '/') <==> Plain(s)
  {
    KeyPieces(namespace, s);
    CountPlain(s.instance, '/');
    CountPlain(s.serviceType, '/');
    CountPlain(s.serviceName, '/');
    hide Split, Count;
  }

  /** The fields survive; port and ttl as strings. */
  lemma FieldsReturn(s: Service)
    requires s.WellFormed()
    ensures var m := Reloaded(ExtendedMetadata(s));
            && Get(m, "hostname") == s.hostname
            && AsNumber(Get(m, "port")) == AsNumber(s.port) && AsNumber(Get(m, "ttl")) == AsNumber(s.ttl)
            && m - {"hostname", "port", "ttl"} == s.metadata
            && forall name :: name in m && Reserved(name) ==> name in {"hostname", "port", "ttl"}
  {
    hide Integer, Literal, ExtendedMetadata;
    var fixed := {"hostname", "port", "ttl"};
    var all := ExtendedMetadata(s);
    FixedFields(s);
    IntegerOfLiteral(s.port.n);
    IntegerOfLiteral(s.ttl.n);
    assert Reloaded(all) - fixed == s.metadata;
  }

  /** The fixed fields and the metadata do not get into each other's way. */
  lemma FixedFields(s: Service)
    requires s.WellFormed()
    ensures var all, fixed := ExtendedMetadata(s), {"hostname", "port", "ttl"};
            && all.Keys == s.metadata.Keys + fixed
            && all["hostname"] == s.hostname && all["port"] == s.port && all["ttl"] == s.ttl
            && (forall name :: name in s.metadata ==> name !in fixed && all[name] == s.metadata[name])
            && forall name :: name in all && Reserved(name) ==> name in fixed
  {
    assert Reserved("hostname") && Reserved("port") && Reserved("ttl");
  }

  /** A deleted key, which comes without a value, still names its service. */
  lemma DeletedKeyNamesService(name: string, s: Service)
    requires Plain(s) && Count(Namespace(name), '/') == 2
    ensures var parse := KvToService(Namespace(name), Key(Namespace(name), s), None);
            && parse.Found? && parse.service.instance == s.instance && parse.service.serviceType == s.serviceType
            && parse.service.serviceName == s.serviceName
  {
    KeyPieces(Namespace(name), s);
    SplitPlain(s.instance, '/');
    SplitPlain(s.serviceType, '/');
    SplitPlain(s.serviceName, '/');
  }

  /** Hence no two services share a key. */
  lemma KeysDistinct(name: string, s: Service, t: Service)
    requires Plain(s) && Plain(t) && Count(Namespace(name), '/') == 2
             && Key(Namespace(name), s) == Key(Namespace(name), t)
    ensures s.instance == t.instance && s.serviceType == t.serviceType && s.serviceName == t.serviceName
  {
    DeletedKeyNamesService(name, s);
    DeletedKeyNamesService(name, t);
  }
}
