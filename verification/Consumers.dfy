/** Defaults both buses apply to a consumer's request (internal/bus/service.go and
    internal/securebus/consume.go). */
module Consumers {
  function ConsumerName(consumer: string): string { if consumer == "" then "default" else consumer }

  function BatchSize(max: int): (n: nat)
    ensures n > 0
  {
    if max <= 0 then 10 else max
  }
}
