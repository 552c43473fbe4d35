/** BenchmarkResult (BenchmarkStrategy.h): what one benchmark run reports.
    Every metric starts as NaN; each strategy fills in its own. The clock
    and the memory snapshot are not modelled: the prediction time and the
    memory reading are given to the strategies as values. */
module BenchmarkStrategy {
  import opened Numeric

  datatype BenchmarkResult = BenchmarkResult(
    modelName: string,
    taskType: string,
    numSamples: nat,
    fitMillis: real,
    predictMillis: real,
    memoryBytes: nat,
    mse: Ext,
    rmse: Ext,
    r2: Ext,
    accuracy: Ext,
    precision: Ext,
    recall: Ext,
    f1: Ext)

  /** A result with its descriptive fields set and every metric at its
      default. */
  function Unscored(modelName: string, taskType: string, numSamples: nat, fitMillis: real,
                    predictMillis: real, memoryBytes: nat): (r: BenchmarkResult)
    ensures r.modelName == modelName && r.taskType == taskType && r.numSamples == numSamples
    ensures r.fitMillis == fitMillis && r.predictMillis == predictMillis && r.memoryBytes == memoryBytes
    ensures r.mse.NaN? && r.rmse.NaN? && r.r2.NaN?
    ensures r.accuracy.NaN? && r.precision.NaN? && r.recall.NaN? && r.f1.NaN?
  {
    BenchmarkResult(modelName, taskType, numSamples, fitMillis, predictMillis, memoryBytes,
                    NaN, NaN, NaN, NaN, NaN, NaN, NaN)
  }
}
