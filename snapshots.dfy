/**
 * The records the scraper works with: one scraped item of the pets page and
 * one timestamped snapshot of all pet values.
 */
module Snapshots {

  /** One `div.pet` of the page: the text of its `h2` (the pet's name) and of its `p` (its value). */
  datatype Item = Item(name: string, valueText: string)

  /**
   * One `{"timestamp": ..., "values": ...}` record of the history. A pet that is
   * missing from `values` was not observed at that time.
   */
  datatype Snapshot = Snapshot(timestamp: string, values: map<string, int>)
}
