/** The Rewards page: the predicted pending reward, the claim button guard and the claim handler. */
module Rewards {
  import opened Options
  import opened Constants
  import opened Transactions

  /**
   * `pendingRewardWei`: nothing when the last claim day is exactly today, otherwise the daily
   * reward raised by the bonus percentage, multiplied first and then floor-divided by 100.
   */
  function PendingReward(dailyReward: nat, bonusPercent: nat, lastClaimDay: nat, currentDay: int): (r: nat)
    ensures lastClaimDay == currentDay ==> r == 0
    ensures lastClaimDay != currentDay ==> r * 100 <= dailyReward * (100 + bonusPercent) < r * 100 + 100
  {
    if lastClaimDay == currentDay then 0 else (dailyReward * (100 + bonusPercent)) / 100
  }

  /** The reward predicted for the Admin page's default daily reward of 0.05 with a 10% bonus: 0.055. */
  lemma PendingRewardExample(lastClaimDay: nat, currentDay: int)
    requires lastClaimDay != currentDay
    ensures PendingReward(50_000_000_000_000_000, 10, lastClaimDay, currentDay) == 55_000_000_000_000_000
  {
  }

  /** Without a bonus the prediction is the daily reward itself. */
  lemma NoBonusPaysDailyReward(dailyReward: nat, lastClaimDay: nat, currentDay: int)
    requires lastClaimDay != currentDay
    ensures PendingReward(dailyReward, 0, lastClaimDay, currentDay) == dailyReward
  {
  }

  /** A larger bonus never predicts less, and any bonus predicts at least the daily reward. */
  lemma PendingMonotonicInBonus(dailyReward: nat, low: nat, high: nat, lastClaimDay: nat, currentDay: int)
    requires low <= high
    ensures PendingReward(dailyReward, low, lastClaimDay, currentDay) <= PendingReward(dailyReward, high, lastClaimDay, currentDay)
    ensures lastClaimDay != currentDay ==> PendingReward(dailyReward, low, lastClaimDay, currentDay) >= dailyReward
  {
    if lastClaimDay != currentDay {
      assert dailyReward * (100 + low) <= dailyReward * (100 + high) by {
        assert dailyReward * (100 + high) == dailyReward * (100 + low) + dailyReward * (high - low);
      }
      assert dailyReward * (100 + low) == dailyReward * 100 + dailyReward * low;
    }
  }

  /** Dividing before multiplying would round differently: one atomic unit with a 50% bonus. */
  lemma MultiplyBeforeDividing()
    ensures PendingReward(1, 50, 0, 1) == 1
    ensures (1 / 100) * (100 + 50) == 0
  {
  }

  /** The four ledger reads; a read that has not returned is missing. */
  datatype RewardReads = RewardReads(streak: Option<nat>, bonusPercent: Option<nat>,
                                     dailyReward: Option<nat>, lastClaimDay: Option<nat>)

  /**
   * The page's prediction at clock reading `nowMs`: missing reads count as 0 (`?? 0n`) and today
   * is `getCurrentUnixDay()`.
   */
  function PendingRewardWei(readings: RewardReads, nowMs: int): (r: nat)
    ensures readings.dailyReward.None? ==> r == 0
    ensures readings.lastClaimDay == Some(UnixDay(nowMs)) ==> r == 0
    ensures readings.lastClaimDay.None? && UnixDay(nowMs) != 0 && readings.bonusPercent.None? ==> r == readings.dailyReward.GetOr(0)
    ensures var d, b, l := readings.dailyReward.GetOr(0), readings.bonusPercent.GetOr(0), readings.lastClaimDay.GetOr(0);
      (l == UnixDay(nowMs) ==> r == 0) && (l != UnixDay(nowMs) ==> r * 100 <= d * (100 + b) < r * 100 + 100)
  {
    PendingReward(readings.dailyReward.GetOr(0), readings.bonusPercent.GetOr(0), readings.lastClaimDay.GetOr(0), UnixDay(nowMs))
  }

  /** `disableClaim`. */
  predicate DisableClaim(isConnected: bool, hasDeployment: bool, pendingRewardWei: nat, isClaiming: bool): (disabled: bool)
    ensures !disabled <==> isConnected && hasDeployment && pendingRewardWei > 0 && !isClaiming
  {
    !isConnected || !hasDeployment || pendingRewardWei == 0 || isClaiming
  }

  /** Having claimed today disables the claim button, whatever the reward and bonus. */
  lemma ClaimedTodayDisablesClaim(readings: RewardReads, nowMs: int, isConnected: bool, hasDeployment: bool, isClaiming: bool)
    requires readings.lastClaimDay == Some(UnixDay(nowMs))
    ensures DisableClaim(isConnected, hasDeployment, PendingRewardWei(readings, nowMs), isClaiming)
  {
  }

  /** The cached ledger reads of the page. */
  datatype Query = LastClaimDayQuery | StreakQuery | BonusPercentQuery | DailyRewardQuery | HistoryQuery

  /** What one `handleClaimReward()` call does. */
  datatype ClaimRun = ClaimRun(submitted: bool, refreshed: set<Query>, toasts: seq<Toast>)

  /**
   * `handleClaimReward()`: without a contract address nothing is submitted. Otherwise the claim is
   * submitted; once it is confirmed (or there is no client to wait with) the last claim day, the
   * streak, the bonus and the history are re-read, and the daily reward is not. A throwing
   * submission or wait re-reads nothing and reports the error.
   */
  function HandleClaimReward(contract: Option<Address>, submission: Submission): (r: ClaimRun)
    ensures contract.None? ==> !r.submitted && r.refreshed == {} && r.toasts == []
    ensures contract.Some? ==> r.submitted
    ensures DailyRewardQuery !in r.refreshed
    ensures r.refreshed != {} <==> contract.Some? && Completed(submission)
    ensures r.refreshed != {} ==> r.refreshed == {LastClaimDayQuery, StreakQuery, BonusPercentQuery, HistoryQuery}
    ensures contract.Some? ==> r.toasts == WriteToasts("Reward claim submitted", "Claim failed", "Failed to claim reward.", submission)
  {
    if contract.None? then ClaimRun(false, {}, [])
    else
      var refreshed := if Completed(submission) then {LastClaimDayQuery, StreakQuery, BonusPercentQuery, HistoryQuery} else {};
      ClaimRun(true, refreshed, WriteToasts("Reward claim submitted", "Claim failed", "Failed to claim reward.", submission))
  }
}
