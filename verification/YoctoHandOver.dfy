/**
 What a Yocto build takes over from the repository when it begins: the copy of the XSA and the configuration
 of the build directory. Both are redone by time stamps, not by content, so the question is when the build
 directory is that of the inputs.
 */
module YoctoHandOver {
  import opened Ledger

  datatype Dated = Dated(time: int, content: string)

  /** The files that are read only then: the XSA, local.conf.append and bblayers-extra.txt. */
  datatype Repo = Repo(xsa: Dated, conf: Option<Dated>, list: Option<Dated>)

  /** What a build directory was configured from; a layer once added stays in bblayers.conf. */
  datatype Config = Config(xsa: string, conf: Option<string>, layers: set<string>)

  datatype Work = Work(
    copy: Option<Dated>,      // hw/<xsa>
    done: Option<int>,        // the time of configdone.txt
    config: Option<Config>)   // what build/conf holds

  /** The layers a list names. */
  type Parser = string -> set<string>

  function Content(f: Option<Dated>): Option<string> {
    match f case Some(d) => Some(d.content) case None => None
  }

  function Layers(parse: Parser, list: Option<Dated>): set<string> {
    match list case Some(d) => parse(d.content) case None => {}
  }

  /** The configuration the inputs ask for. */
  function Wanted(parse: Parser, r: Repo): Config {
    Config(r.xsa.content, Content(r.conf), Layers(parse, r.list))
  }

  predicate Current(parse: Parser, w: Work, r: Repo) {
    w.config == Some(Wanted(parse, r))
  }

  predicate Copies(w: Work, r: Repo) {
    w.copy.None? || w.copy.value.time < r.xsa.time
  }

  function Copied(w: Work, r: Repo, now: int): Work {
    if Copies(w, r) then w.(copy := Some(Dated(now, r.xsa.content))) else w
  }

  predicate Newer(f: Option<Dated>, time: int) {
    f.Some? && time < f.value.time
  }

  /** The configure script runs if its marker is missing or older than a file that is there. */
  predicate Configures(w: Work, r: Repo) {
    w.done.None? || Newer(w.copy, w.done.value) || Newer(r.conf, w.done.value) || Newer(r.list, w.done.value)
  }

  function Held(w: Work): set<string> {
    match w.config case Some(c) => c.layers case None => {}
  }

  function Configured(parse: Parser, w: Work, r: Repo): Config
    requires w.copy.Some?
  {
    Config(w.copy.value.content, Content(r.conf), Held(w) + Layers(parse, r.list))
  }

  /** Steps 2 and 3 of stage_yocto at time `now`. If the script fails it leaves anything behind, except that
      it adds no layer that is not asked for and writes no marker. */
  function HandOver(parse: Parser, w: Work, r: Repo, now: int, ok: bool, left: Config): Work {
    var v := Copied(w, r, now);
    if !Configures(v, r) then v
    else if ok then v.(done := Some(now), config := Some(Configured(parse, v, r)))
    else v.(config := Some(left.(layers := Held(v) + left.layers * Layers(parse, r.list))))
  }

  /** Afterwards the build directory is that of the inputs exactly when the copy has the content of the XSA and,
      if the script ran, no layer is left over that is no longer asked for, and, if it did not run, the
      directory was that of the inputs before. */
  lemma CurrentAfterwardsIff(parse: Parser, w: Work, r: Repo, now: int, left: Config)
    ensures var v := Copied(w, r, now);
            Current(parse, HandOver(parse, w, r, now, true, left), r)
            <==> if Configures(v, r) then v.copy.value.content == r.xsa.content && Held(w) <= Layers(parse, r.list)
                 else w.config == Some(Wanted(parse, r))
  {
    assert Held(w) <= Layers(parse, r.list) <==> Held(w) + Layers(parse, r.list) == Layers(parse, r.list);
  }

  // ---------------------------------------------------------------- runs

  datatype Event =
    | SetXsa(xsa: Dated)
    | SetConf(conf: Option<Dated>)
    | SetList(list: Option<Dated>)
    | Build(now: int, ok: bool, left: Config)

  datatype State = State(repo: Repo, work: Work)

  function Step(parse: Parser, s: State, e: Event): State {
    match e
    case SetXsa(xsa) => s.(repo := s.repo.(xsa := xsa))
    case SetConf(conf) => s.(repo := s.repo.(conf := conf))
    case SetList(list) => s.(repo := s.repo.(list := list))
    case Build(now, ok, left) => s.(work := HandOver(parse, s.work, s.repo, now, ok, left))
  }

  function Run(parse: Parser, s: State, es: seq<Event>): State
    decreases es
  {
    if es == [] then s else Run(parse, Step(parse, s, es[0]), es[1..])
  }

  /** The time an event leaves on what it writes; a removal leaves none. */
  function Time(e: Event): Option<int> {
    match e
    case SetXsa(xsa) => Some(xsa.time)
    case SetConf(conf) => if conf.Some? then Some(conf.value.time) else None
    case SetList(list) => if list.Some? then Some(list.value.time) else None
    case Build(now, _, _) => Some(now)
  }

  /** A file that is changed is given a later time than anything before, none of the two optional files is
      removed once it is there, and no layer is taken off the list. */
  predicate Timely(parse: Parser, s: State, e: Event, last: int) {
    && (Time(e).Some? ==> Time(e).value > last)
    && (e.SetConf? ==> e.conf.Some?)
    && (e.SetList? ==> e.list.Some? && Layers(parse, s.repo.list) <= Layers(parse, e.list))
  }

  predicate AllTimely(parse: Parser, s: State, es: seq<Event>, last: int)
    decreases es
  {
    es == [] ||
    (Timely(parse, s, es[0], last)
     && AllTimely(parse, Step(parse, s, es[0]), es[1..], if Time(es[0]).Some? then Time(es[0]).value else last))
  }

  predicate Before(f: Option<Dated>, last: int) {
    f.Some? ==> f.value.time <= last
  }

  /** A copy that is not older than the XSA has its content, and a marker that is not older than the files has
      their configuration. */
  predicate Inv(parse: Parser, s: State, last: int) {
    var w, r := s.work, s.repo;
    && r.xsa.time <= last && Before(r.conf, last) && Before(r.list, last) && Before(w.copy, last)
    && (w.done.Some? ==> w.done.value <= last && w.copy.Some?)
    && (!Copies(w, r) ==> w.copy.value.content == r.xsa.content)
    && Held(w) <= Layers(parse, r.list)
    && (!Configures(w, r) ==> w.config == Some(Config(w.copy.value.content, Content(r.conf), Layers(parse, r.list))))
  }

  lemma TimelyKeeps(parse: Parser, s: State, e: Event, last: int)
    requires Inv(parse, s, last) && Timely(parse, s, e, last)
    ensures Inv(parse, Step(parse, s, e), if Time(e).Some? then Time(e).value else last)
    ensures e.Build? && e.ok ==> Current(parse, Step(parse, s, e).work, s.repo)
  {
    if e.Build? {
      var v := Copied(s.work, s.repo, e.now);
      assert Held(s.work) + Layers(parse, s.repo.list) == Layers(parse, s.repo.list);
      assert v.copy.value.content == s.repo.xsa.content;
    }
  }

  /** Before the first build. */
  function Start(r: Repo): State {
    State(r, Work(None, None, None))
  }

  /** Over every timely run, with builds that fail or are not configured again, a build that gets past the
      configure step has a build directory that is that of the inputs. */
  lemma EveryTimelyBuildIsCurrent(parse: Parser, r: Repo, es: seq<Event>, e: Event, last: int)
    requires r.xsa.time <= last && Before(r.conf, last) && Before(r.list, last)
    requires AllTimely(parse, Start(r), es + [e], last) && e.Build? && e.ok
    ensures var s := Run(parse, Start(r), es); Current(parse, Step(parse, s, e).work, s.repo)
  {
    var now := TimelyLast(parse, Start(r), es, e, last);
    TimelyKeeps(parse, Run(parse, Start(r), es), e, now);
  }

  lemma {:induction false} TimelyLast(parse: Parser, s: State, es: seq<Event>, e: Event, last: int) returns (now: int)
    requires Inv(parse, s, last) && AllTimely(parse, s, es + [e], last)
    ensures Inv(parse, Run(parse, s, es), now) && Timely(parse, Run(parse, s, es), e, now)
    decreases es
  {
    now := last;
    if es == [] {
      assert (es + [e])[0] == e;
    } else {
      assert (es + [e])[0] == es[0] && (es + [e])[1..] == es[1..] + [e];
      TimelyKeeps(parse, s, es[0], last);
      now := TimelyLast(parse, Step(parse, s, es[0]), es[1..], e, if Time(es[0]).Some? then Time(es[0]).value else last);
    }
  }

  // ---------------------------------------------------------------- what is not noticed

  /** In a current build directory with a later marker, nothing is redone; so after a change that leaves no later
      time the directory is that of the inputs only if the change is none. */
  lemma UnseenChange(parse: Parser, w: Work, r: Repo, changed: Repo, now: int, left: Config)
    requires Current(parse, w, r) && !Copies(w, changed) && !Configures(w, changed)
    ensures Current(parse, HandOver(parse, w, changed, now, true, left), changed)
            <==> Wanted(parse, changed) == Wanted(parse, r)
  {
  }

  /** Removing local.conf.append is such a change: images built next still have its settings. */
  lemma RemovedConfIsNotNoticed(parse: Parser, w: Work, r: Repo, now: int, left: Config)
    requires Current(parse, w, r) && !Copies(w, r) && !Configures(w, r) && r.conf.Some?
    ensures !Current(parse, HandOver(parse, w, r.(conf := None), now, true, left), r.(conf := None))
  {
    UnseenChange(parse, w, r, r.(conf := None), now, left);
  }

  /** So is an XSA of other content put in place with an older time. */
  lemma OlderXsaIsNotNoticed(parse: Parser, w: Work, r: Repo, xsa: Dated, now: int, left: Config)
    requires Current(parse, w, r) && !Copies(w, r) && !Configures(w, r)
    requires xsa.time <= w.copy.value.time && xsa.content != r.xsa.content
    ensures !Current(parse, HandOver(parse, w, r.(xsa := xsa), now, true, left), r.(xsa := xsa))
  {
    UnseenChange(parse, w, r, r.(xsa := xsa), now, left);
  }

  /** And a layer taken off the list stays in the build although the script runs. */
  lemma RemovedLayerStays(parse: Parser, w: Work, r: Repo, list: Option<Dated>, layer: string, now: int, left: Config)
    requires Current(parse, w, r) && layer in Layers(parse, r.list) && layer !in Layers(parse, list)
    ensures !Current(parse, HandOver(parse, w, r.(list := list), now, true, left), r.(list := list))
  {
    CurrentAfterwardsIff(parse, w, r.(list := list), now, left);
  }
}
