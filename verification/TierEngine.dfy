/** The tier engine as the program keeps it: two dictionaries and a set, updated in place
    (aimos/universe/tiers.py). */
module TierEngine {
  import opened Tiers

  class TierEngine {
    const cfg: Config
    var tier: map<string, Tier>
    var belowStreak: map<string, int>
    var provisional: set<string>

    ghost function View(): State
      reads this
    {
      State(tier, belowStreak, provisional)
    }

    constructor (cfg: Config)
      ensures this.cfg == cfg && View() == EMPTY
    {
      this.cfg := cfg;
      tier := map[];
      belowStreak := map[];
      provisional := {};
    }

    method AddProvisional(base: string) returns (ok: bool)
      modifies this`provisional, this`tier
      ensures (View(), ok) == Tiers.AddProvisional(cfg, old(View()), base)
    {
      var b := Upper(base);
      if b in provisional {
        return true;
      }
      if |provisional| >= cfg.provisionalMax {
        return false;
      }
      provisional := provisional + {b};
      tier := tier[b := Provisional];
      return true;
    }

    method ClearProvisional(base: string)
      modifies this`provisional, this`tier
      ensures View() == Tiers.ClearProvisional(old(View()), base)
    {
      var b := Upper(base);
      if b in provisional {
        provisional := provisional - {b};
        tier := tier - {b};
        tier := tier[b := T3];
      }
    }

    method SetTier(base: string, to: Tier)
      modifies this`tier
      ensures tier == old(tier)[Upper(base) := to]
    {
      var b := Upper(base);
      if b in tier && tier[b] == to {
        return;
      }
      tier := tier[b := to];
    }

    /** One member's turn in the demotion loop. */
    method ReviewMember(scores: Scores, b: string)
      modifies this`tier, this`belowStreak
      ensures View() == Review(cfg, old(View()), scores, b)
    {
      if ScoreOf(scores, b) < cfg.demote {
        belowStreak := belowStreak[b := StreakOf(belowStreak, b) + 1];
        if belowStreak[b] >= cfg.demoteScans {
          SetTier(b, T2);
          belowStreak := belowStreak - {b};
        }
      } else {
        belowStreak := belowStreak[b := 0];
      }
    }

    method ReviewNextMember(scores: Scores, b: string, ghost before: State, ghost done: set<string>)
      requires KeysUpper(before.tier) && done <= Members(before.tier) && b in Members(before.tier) && b !in done
      requires View() == ReviewSome(cfg, before, scores, done)
      modifies this`tier, this`belowStreak
      ensures View() == ReviewSome(cfg, before, scores, done + {b})
    {
      ReviewNext(cfg, before, scores, done, b);
      ReviewMember(scores, b);
    }

    /** Step 1. The members are a set, so nothing is known of their order. */
    method Demote(scores: Scores)
      requires KeysUpper(tier)
      modifies this`tier, this`belowStreak
      ensures View() == ReviewSome(cfg, old(View()), scores, Members(old(tier)))
    {
      ghost var before := View();
      ghost var members := Members(tier);
      var todo := Members(tier);
      assert members - todo == {};
      while todo != {}
        invariant todo <= members
        invariant View() == ReviewSome(cfg, before, scores, members - todo)
        decreases todo
      {
        var b :| b in todo;
        ReviewNextMember(scores, b, before, members - todo);
        assert members - todo + {b} == members - (todo - {b});
        todo := todo - {b};
      }
      assert members - todo == members;
    }

    /** Step 2. */
    method Promote(scores: Scores)
      modifies this`tier, this`belowStreak
      ensures View() == PromoteAll(cfg, old(View()), Queue(cfg, old(tier), scores))
    {
      var queue := Queue(cfg, tier, scores);
      var i := 0;
      while i < |queue|
        invariant 0 <= i <= |queue|
        invariant PromoteAll(cfg, View(), queue[i..]) == PromoteAll(cfg, old(View()), queue)
      {
        if |Members(tier)| >= cfg.t1Max {
          break;
        }
        assert queue[i..][1..] == queue[i + 1..];
        SetTier(queue[i].0, T1);
        belowStreak := belowStreak[queue[i].0 := 0];
        i := i + 1;
      }
    }

    /** Step 3. */
    method AssignWatch(ranking: seq<string>)
      modifies this`tier
      ensures tier == Watch(cfg, old(tier), Members(old(tier)) + provisional, ranking, 0)
    {
      var taken := Members(tier) + provisional;
      var placed := 0;
      var i := 0;
      while i < |ranking|
        invariant 0 <= i <= |ranking| && placed >= 0
        invariant Watch(cfg, tier, taken, ranking[i..], placed) == Watch(cfg, old(tier), taken, ranking, 0)
      {
        var b := Upper(ranking[i]);
        assert ranking[i..][1..] == ranking[i + 1..];
        if b !in taken {
          if placed >= cfg.t2Max {
            break;
          }
          UpperIsUpper(ranking[i]);
          if TierOf(tier, b) != T2 {
            SetTier(b, T2);
          } else {
            assert tier[b := T2] == tier;
          }
          placed := placed + 1;
        }
        i := i + 1;
      }
    }

    /** One scan. */
    method Update(scores: Scores, watch: seq<string>)
      requires KeysUpper(tier)
      modifies this
      ensures View() == Tiers.Update(cfg, old(View()), scores, watch)
    {
      Demote(scores);
      Promote(scores);
      AssignWatch(Ranking(scores, watch));
    }
  }
}
