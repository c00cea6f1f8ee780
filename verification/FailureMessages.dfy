/** What a failed call tells its caller: a fixed sentence, never the driver's text. */
module FailureMessages {
  import opened Common

  datatype Kind =
    | Syntax | ColumnNotFound | TableNotFound | Permission | Auth | Network | Dsn | DriverMissing
    | Timeout | SignInRequired | Other

  datatype Failure = Failure(kind: Kind, message: string)

  /** The sentences this module owns. `classSentence` and `unclassified` have one slot, for the code. */
  datatype Sentences = Sentences(
    forKind: Kind -> Option<string>,                     // `_ERROR_MESSAGES`
    unexpected: string,
    nestedAggregate: string,
    dialectRules: seq<string>,                           // one per dialect rule
    classSentence: (string, string) -> Option<string>,   // by SQLSTATE class, filled with the code
    unclassified: string -> string)

  /** What is read off a driver's text. None of it is more than a label. */
  datatype Reader = Reader(
    classify: (string, int) -> Kind,
    ruleFor: (Option<string>, string) -> Option<nat>,    // by engine: the dialect rule that explains it
    nested: string -> bool,
    classKind: string -> Kind)                           // by SQLSTATE class

  function ExitKind(code: int): Kind {
    match code
    case 2 => Dsn
    case 3 => DriverMissing
    case 4 => Auth
    case 5 => Syntax
    case 6 => Other
    case 7 => ColumnNotFound
    case 8 => TableNotFound
    case 9 => Permission
    case 10 => Network
    case 11 => SignInRequired
    case _ => Other
  }

  /** The exit code of a process whose call failed: the table read backwards, and 6 for a kind it lacks. */
  function ExitCode(kind: Kind): int {
    match kind
    case Dsn => 2
    case DriverMissing => 3
    case Auth => 4
    case Syntax => 5
    case Other => 6
    case ColumnNotFound => 7
    case TableNotFound => 8
    case Permission => 9
    case Network => 10
    case SignInRequired => 11
    case Timeout => 6
  }

  /** **A failure's kind survives the exit code exactly when it is not a timeout**, which reads back as
      unclassified, and no code of the table is read as another's kind; every code outside the table
      reads as unclassified. */
  lemma KindSurvivesIff(kind: Kind, code: int)
    ensures ExitKind(ExitCode(kind)) == kind <==> kind != Timeout
    ensures ExitKind(ExitCode(Timeout)) == Other
    ensures ExitCode(ExitKind(code)) == code <==> 2 <= code <= 11
    ensures ExitKind(code) == Other <==> code == 6 || !(2 <= code <= 11)
  {
  }

  predicate Authored(code: int) { code == 2 || code == 3 }

  /** The kinds whose fix is not a rewrite. */
  predicate NotARewrite(k: Kind) {
    k in {Permission, Auth, SignInRequired, Network, Dsn, DriverMissing}
  }

  predicate IsSqlstate(s: string) {
    |s| == 5 && forall k :: 0 <= k < 5 ==> '0' <= s[k] <= '9' || 'A' <= s[k] <= 'Z'
  }

  type Sqlstate = s: string | IsSqlstate(s) witness "00000"

  /** `_sqlstate_failure` */
  function SqlstateFailure(t: Sentences, r: Reader, code: Sqlstate): Failure {
    if code == "42501" && t.forKind(Permission).Some? then Failure(Permission, t.forKind(Permission).value)
    else
      var klass := code[..2];
      var kind := r.classKind(klass);
      match t.classSentence(klass, code)
      case Some(sentence) => Failure(kind, sentence)
      case None =>
        match t.forKind(kind)
        case Some(sentence) => Failure(kind, sentence)
        case None => Failure(Other, t.unclassified(code))
  }

  /** The answer to an executor's error. */
  function FailureFor(t: Sentences, r: Reader, engine: Option<string>, code: int, text: string,
                      sqlstate: Option<Sqlstate>): Failure {
    if Authored(code) then Failure(ExitKind(code), text)
    else
      var kind := r.classify(text, code);
      var plain := Failure(kind, if t.forKind(kind).Some? then t.forKind(kind).value else t.unexpected);
      var rule := if code == 5 && !NotARewrite(kind) then r.ruleFor(engine, text) else None;
      if rule.Some? && rule.value < |t.dialectRules| then Failure(Syntax, t.dialectRules[rule.value])
      else
        var read :=
          if kind == Other && code == 5 && sqlstate.Some? then SqlstateFailure(t, r, sqlstate.value) else plain;
        if code == 5 && (read.kind == Syntax || read.kind == Other) && r.nested(text)
        then read.(message := t.nestedAggregate)
        else read
  }

  /** The sentences a caller may be shown. */
  ghost predicate Fixed(t: Sentences, m: string) {
    || m == t.unexpected
    || m == t.nestedAggregate
    || m in t.dialectRules
    || (exists k :: t.forKind(k) == Some(m))
    || (exists code: Sqlstate :: t.classSentence(code[..2], code) == Some(m))
    || (exists code: Sqlstate :: t.unclassified(code) == m)
  }

  lemma SqlstateFixed(t: Sentences, r: Reader, code: Sqlstate)
    ensures Fixed(t, SqlstateFailure(t, r, code).message)
  {
    var kind := r.classKind(code[..2]);
    if t.classSentence(code[..2], code).Some? {
      assert Fixed(t, t.classSentence(code[..2], code).value);
    }
    if t.forKind(kind).Some? {
      assert Fixed(t, t.forKind(kind).value);
    }
    if t.forKind(Permission).Some? {
      assert Fixed(t, t.forKind(Permission).value);
    }
    assert Fixed(t, t.unclassified(code));
  }

  /** **For every code outside the authored ones the message is one of the fixed sentences**, whatever
      the driver wrote and however it is read. */
  lemma MessageFixed(t: Sentences, r: Reader, engine: Option<string>, code: int, text: string,
                     sqlstate: Option<Sqlstate>)
    ensures !Authored(code) ==> Fixed(t, FailureFor(t, r, engine, code, text, sqlstate).message)
    ensures Authored(code) ==> FailureFor(t, r, engine, code, text, sqlstate).message == text
  {
    if sqlstate.Some? {
      SqlstateFixed(t, r, sqlstate.value);
    }
    var kind := r.classify(text, code);
    if t.forKind(kind).Some? {
      assert Fixed(t, t.forKind(kind).value);
    }
  }

  function SentenceFor(t: Sentences, k: Kind): string {
    match t.forKind(k)
    case Some(sentence) => sentence
    case None => t.unexpected
  }

  /** **Which sentence an error gets.** An authored code keeps its text and names its own kind. Anything
      but an execution error, and an execution error whose fix is no rewrite, is told by its kind alone. Of
      the others a dialect rule comes first, then the nested-aggregate sentence, then the SQLSTATE of one
      nothing else could read. */
  lemma SentenceChosen(t: Sentences, r: Reader, engine: Option<string>, code: int, text: string,
                       sqlstate: Option<Sqlstate>)
    ensures var f := FailureFor(t, r, engine, code, text, sqlstate);
            var kind := r.classify(text, code);
            var rule := r.ruleFor(engine, text);
            var ruled := rule.Some? && rule.value < |t.dialectRules|;
            && (code == 2 ==> f == Failure(Dsn, text))
            && (code == 3 ==> f == Failure(DriverMissing, text))
            && (code != 2 && code != 3 && code != 5 ==> f == Failure(kind, SentenceFor(t, kind)))
            && (code == 5 && kind in {Permission, Auth, SignInRequired, Network, Dsn, DriverMissing} ==>
                  f == Failure(kind, SentenceFor(t, kind)))
            && (code == 5 && kind in {Syntax, ColumnNotFound, TableNotFound, Timeout, Other} && ruled ==>
                  f == Failure(Syntax, t.dialectRules[rule.value]))
            && (code == 5 && kind in {ColumnNotFound, TableNotFound, Timeout} && !ruled ==>
                  f == Failure(kind, SentenceFor(t, kind)))
            && (code == 5 && kind == Syntax && !ruled ==>
                  f == Failure(Syntax, if r.nested(text) then t.nestedAggregate else SentenceFor(t, Syntax)))
            && (code == 5 && kind == Other && !ruled && sqlstate == None ==>
                  f == Failure(Other, if r.nested(text) then t.nestedAggregate else SentenceFor(t, Other)))
            && (code == 5 && kind == Other && !ruled && sqlstate.Some? ==>
                  var read := SqlstateFailure(t, r, sqlstate.value);
                  f == if read.kind in {Syntax, Other} && r.nested(text) then Failure(read.kind, t.nestedAggregate)
                    else read)
  {
  }

  /** A SQLSTATE is told by its own sentence, then by its class, then by the kind of its class, and by the
      code itself only when none of these has one. */
  lemma SqlstateChosen(t: Sentences, r: Reader, code: Sqlstate)
    ensures var f := SqlstateFailure(t, r, code);
            var kind := r.classKind(code[..2]);
            && (code == "42501" && t.forKind(Permission).Some? ==>
                f == Failure(Permission, t.forKind(Permission).value))
            && (code != "42501" || t.forKind(Permission).None? ==>
                  && (t.classSentence(code[..2], code).Some? ==>
                        f == Failure(kind, t.classSentence(code[..2], code).value))
                  && (t.classSentence(code[..2], code).None? && t.forKind(kind).Some? ==>
                        f == Failure(kind, t.forKind(kind).value))
                  && (t.classSentence(code[..2], code).None? && t.forKind(kind).None? ==>
                        f == Failure(Other, t.unclassified(code))))
  {
  }
}
