/**
 * A scenario checked call by call against the method contracts: with
 * rpm_limit=2, tpm_limit=100 and a one-second window, two immediate
 * acquires do not wait, the third waits 1.0 + 0.1 seconds, and of two reports
 * of 60 tokens the second waits until the first entry leaves the window.
 * Each call is in its own method, so that each proof sees one call.
 */
module Scenario {
  import opened SlidingWindow
  import opened RateLimiting

  method RpmScenario()
  {
    var limiter := new RateLimiter(Some(2), Some(100), 1.0);
    var w1 := limiter.Acquire(0.0, 0.0);
    assert w1 == 0.0 && limiter.requestTimes == [0.0];
    SecondAcquire(limiter);
  }

  method SecondAcquire(limiter: RateLimiter)
    requires limiter.rpmLimit == Some(2) && limiter.windowSeconds == 1.0
    requires limiter.requestTimes == [0.0]
    modifies limiter
  {
    var w2 := limiter.Acquire(0.0, 0.0);
    assert w2 == 0.0 && limiter.requestTimes == [0.0, 0.0];
    ThirdAcquire(limiter);
  }

  method ThirdAcquire(limiter: RateLimiter)
    requires limiter.rpmLimit == Some(2) && limiter.windowSeconds == 1.0
    requires limiter.requestTimes == [0.0, 0.0]
    modifies limiter
  {
    // The oldest request leaves the window after 1.0 s; with the safety
    // buffer the call sleeps 1.1 s and records the request at that time.
    var w3 := limiter.Acquire(0.0, 1.1);
    assert w3 == 1.1 && limiter.requestTimes == [0.0, 0.0, 1.1];
  }

  method TpmScenario()
  {
    var limiter := new RateLimiter(Some(2), Some(100), 1.0);
    var r1 := limiter.ReportActualUsage(1.2, 60);
    assert limiter.tokenUsage == [TokenEntry(1.2, 60)];
    assert Sum(limiter.tokenUsage) == 60;
    assert r1 == 0.0;
    SecondReport(limiter);
  }

  method SecondReport(limiter: RateLimiter)
    requires limiter.tpmLimit == Some(100) && limiter.windowSeconds == 1.0
    requires limiter.tokenUsage == [TokenEntry(1.2, 60)]
    modifies limiter
  {
    var r2 := limiter.ReportActualUsage(1.3, 60);
    var log := [TokenEntry(1.2, 60), TokenEntry(1.3, 60)];
    assert Times([TokenEntry(1.2, 60)]) == [1.2];
    assert ExpiredCount([1.2], 0.3) == 0;
    assert limiter.tokenUsage == log;
    assert log[..1] == [TokenEntry(1.2, 60)] && Sum(log[..1]) == 60;
    assert Sum(log) == 120;
    assert Reaches(log, 0, 20);
    assert FirstReaching(log, 20) == Some(0);
    // 1.2 + 1.0 - 1.3 + 0.1: the first entry leaves the window.
    assert r2 == 1.0;
  }
}
