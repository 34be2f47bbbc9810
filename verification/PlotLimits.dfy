/** Limits of the plots (include/nvtop/interface_layout_selection.h:14, include/nvtop/common.h:48). */
module PlotLimits {
  const MAX_CHARTS: nat := 64
  const MAX_LINES_PER_PLOT: nat := 4
}
