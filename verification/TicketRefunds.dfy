/** What the clean-up of an upgrade has brought each account by the time its row is gone. */
module TicketRefunds {
  import opened Eosio
  import opened TicketLedger
  import opened GrabModel
  import opened TicketWorld
  import opened TicketPayouts
  import opened TicketClearing
  import GrabAudit
  import TicketRuns
  import TicketEscrow

  lemma {:induction false} LostSplit(a: seq<Log>, b: seq<Log>, owner: Name, n: Nid)
    ensures Lost(a + b, owner, n) == Lost(a, owner, n) + Lost(b, owner, n) && Won(a + b, n) == Won(a, n) + Won(b, n)
  {
    if b == [] {
      assert a + b == a;
    } else {
      LostSplit(a, b[..|b| - 1], owner, n);
      assert (a + b)[..|a + b| - 1] == a + b[..|b| - 1];
    }
  }

  /** What an account gets of `logs`: its own payments that did not win, and the burn account all that did. */
  ghost function Share(logs: seq<Log>, owner: Name, n: Nid): int {
    Lost(logs, owner, n) + if owner == OOOO then Won(logs, n) else 0
  }

  /** How much the committed clean-up calls of a run change an account's balance of one ticket. */
  ghost function Brought(w: World, trace: seq<Event>, id: nat, owner: Name, n: Nid): int {
    if trace == [] then 0
    else
      var init, last := trace[..|trace| - 1], trace[|trace| - 1];
      var before := Run(w, init);
      var r := Step(before, last.act, last.env);
      Brought(w, init, id, owner, n) + if last.act == DelUpgrade(id) && r.Some? then Held(r.value.nft, owner, n) - Held(before.nft, owner, n) else 0
  }

  lemma OneCallBrings(w: World, env: Env, id: nat, owner: Name, n: Nid)
    requires owner != GRAB_CISUM && TicketEscrow.Escrowed(w) && Step(w, DelUpgrade(id), env).Some?
    ensures var here := LogsOf(w.grab, id);
            Held(Step(w, DelUpgrade(id), env).value.nft, owner, n) - Held(w.nft, owner, n) == Share(here[..Min(MAX_UPGRADE, |here|)], owner, n)
  {
    hide Step, Held, Lost, Won;
    ClearingPaysBack(w, DelUpgrade(id), env);
  }

  /** Over any run from a reachable state the calls bring every account exactly its share of the logs they settle. */
  lemma {:induction false} CallsBringShares(past: seq<Event>, trace: seq<Event>, id: nat, owner: Name, n: Nid)
    requires owner != GRAB_CISUM
    ensures var w := Run(Empty(), past); Brought(w, trace, id, owner, n) == Share(Settled(w, trace, id), owner, n)
  {
    hide Step, Held, Share;
    var w := Run(Empty(), past);
    if trace == [] {
      NoShare(owner, n);
    } else {
      var init, last := trace[..|trace| - 1], trace[|trace| - 1];
      CallsBringShares(past, init, id, owner, n);
      var before := Run(w, init);
      if last.act == DelUpgrade(id) && Step(before, last.act, last.env).Some? {
        RunsCompose(Empty(), past, init);
        TicketRuns.RunKeepsEscrowed(past + init);
        OneCallBrings(before, last.env, id, owner, n);
        var here := LogsOf(before.grab, id);
        SharesAdd(Settled(w, init, id), here[..Min(MAX_UPGRADE, |here|)], owner, n);
      } else {
        assert Settled(w, init, id) + [] == Settled(w, init, id);
      }
    }
  }

  lemma NoShare(owner: Name, n: Nid)
    ensures Share([], owner, n) == 0
  {
  }

  lemma SharesAdd(a: seq<Log>, b: seq<Log>, owner: Name, n: Nid)
    ensures Share(a + b, owner, n) == Share(a, owner, n) + Share(b, owner, n)
  {
    LostSplit(a, b, owner, n);
  }

  lemma AllSettled(g: Grab, h: Grab, id: nat, calls: nat, settled: seq<Log>)
    requires id in g.upgrades && Paged(g, h, id, calls, settled) && id !in h.upgrades
    ensures settled == LogsOf(g, id)
  {
    hide GrabAudit.Pages;
    PagesAre(|LogsOf(g, id)|, calls);
  }

  /** Once the row of an ended upgrade is gone, whatever else has happened: its clean-up calls have brought every account all it paid
      and did not win with, each payment once, and the burn account all that winners paid. */
  lemma EveryPayerIsRefunded(past: seq<Event>, trace: seq<Event>, id: nat, owner: Name, n: Nid)
    requires owner != GRAB_CISUM && id in Run(Empty(), past).grab.upgrades
    requires forall i | 0 <= i < |trace| :: trace[i].env.now > Run(Empty(), past).grab.upgrades[id].endedAt
    requires forall i | 0 <= i < |trace| :: !(trace[i].act.SetUpgrade? && trace[i].act.id == id)
    ensures var w := Run(Empty(), past); var logs := LogsOf(w.grab, id);
            id !in Run(w, trace).grab.upgrades ==>
              Brought(w, trace, id, owner, n) == Lost(logs, owner, n) + if owner == OOOO then Won(logs, n) else 0
  {
    hide Run, Brought, Settled, Paged, Calls, Lost, Won;
    var w := Run(Empty(), past);
    UpgradeClearsInPages(past, trace, id);
    CallsBringShares(past, trace, id, owner, n);
    if id !in Run(w, trace).grab.upgrades {
      AllSettled(w.grab, Run(w, trace).grab, id, Calls(trace, id), Settled(w, trace, id));
    }
  }
}
